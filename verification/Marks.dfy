/** High-water marks, the saved credential, retries, and a fresh start after any earlier state. */
module Marks {
  import opened Outcomes
  import opened Tokens
  import opened KeyChain
  import opened Exchange
  import opened Persistence
  import opened Session
  import opened Crashes
  import opened Safety
  import opened Clocks

  // ---- high-water marks ----

  /** t's marks are not behind those of s; a new epoch starts its own generations. */
  predicate NotBehind(s: State, t: State, newEpoch: bool) {
    && s.keysetSequence <= t.keysetSequence
    && s.epoch.statusSequence <= t.epoch.statusSequence
    && (newEpoch || s.epoch.highestGeneration <= t.epoch.highestGeneration)
  }

  lemma JudgedMarks(e: Epoch, response: Response, authorizing: bool)
    requires response.status.Some? ==> response.status.value.sequence >= e.statusSequence
    ensures var j := Judged(e, response, authorizing);
            && j.statusSequence == (if response.status.Some? then response.status.value.sequence else e.statusSequence)
            && ((authorizing && response.lease.Some?) || j.highestGeneration >= e.highestGeneration)
  {
    var leased := WithLease(e, response, authorizing);
    assert leased.statusSequence == e.statusSequence;
    var judged := WithStatus(leased, response);
    assert judged.highestGeneration == leased.highestGeneration;
  }

  lemma AcceptMarks(setup: Setup, m: Machine, response: Response, authorizing: bool, clock: Clock)
    requires Inv(setup, m)
    ensures NotBehind(m.state, Accept(setup, m, response, authorizing, clock).machine.state,
                      authorizing && response.lease.Some?)
  {
    if !MovedBack(m.state, response, authorizing) {
      if Stale(response) {
        ReloadKeepsState(setup, m, clock(Anchoring));
      } else {
        JudgedMarks(m.state.epoch, response, authorizing);
      }
    }
  }

  /** The marks and the credential are not touched by scheduling a retry or catching an error. */
  predicate SameMarks(s: State, t: State) {
    s.keysetSequence == t.keysetSequence && s.epoch == t.epoch
  }

  lemma CaughtMarks(setup: Setup, m: Machine, failure: Failure, ending: bool, w: World, posted: seq<PreparedRequest>,
                    heard: Option<Response>)
    ensures var t := Caught(setup, m, failure, ending, w, posted, heard).machine.state;
            SameMarks(m.state, t) && t.storedLicenseKey == m.state.storedLicenseKey
  {
  }

  predicate MissingKey(response: Response) {
    response.decision.Some? && response.decision.value.responseCode == "KEY_NOT_FOUND"
  }

  lemma ConcludeMarks(setup: Setup, m: Machine, response: Response, authorizing: bool, forgetMissingKey: bool, w: World)
    ensures var t := Conclude(setup, m, response, authorizing, forgetMissingKey, w).0.state;
            SameMarks(m.state, t)
            && t.storedLicenseKey == if forgetMissingKey && MissingKey(response) then None else m.state.storedLicenseKey
  {
  }

  /** A new epoch can start: the operation heard a lease in answer to an authorize request. */
  predicate StartsEpoch(a: Answer, authorizing: bool) {
    authorizing && a.heard.Some? && a.heard.value.lease.Some?
  }

  lemma AcceptCredential(setup: Setup, m: Machine, response: Response, authorizing: bool, clock: Clock)
    requires Inv(setup, m)
    ensures Accept(setup, m, response, authorizing, clock).machine.state.storedLicenseKey == m.state.storedLicenseKey
  {
    if !MovedBack(m.state, response, authorizing) && Stale(response) {
      ReloadKeepsState(setup, m, clock(Anchoring));
    }
  }

  /** The saved credential after an operation: erased only on a signed KEY_NOT_FOUND. */
  predicate CredentialKept(before: Option<string>, a: Answer) {
    a.machine.state.storedLicenseKey == before
    || (a.machine.state.storedLicenseKey == None && a.heard.Some? && MissingKey(a.heard.value))
  }

  lemma ExecuteMarks(setup: Setup, m: Machine, prepared: Result<PreparedRequest>, authorizing: bool,
                     forgetMissingKey: bool, w: World)
    requires Inv(setup, m)
    ensures var a := Execute(setup, m, prepared, authorizing, forgetMissingKey, w);
            NotBehind(m.state, a.machine.state, StartsEpoch(a, authorizing))
                && CredentialKept(m.state.storedLicenseKey, a)
  {
    if prepared.Ok? {
      var posted := Postings(setup.cfg, prepared.value, w);
      match Process(setup.cfg, m.ring, Final(setup.cfg, w.network), prepared.value)
      case Err(f) => CaughtMarks(setup, m, f, false, w, posted, None);
      case Ok(p) =>
        var received := m.(ring := p.ring);
        assert Inv(setup, received);
        AcceptMarks(setup, received, p.response, authorizing, w.clock);
        AcceptCredential(setup, received, p.response, authorizing, w.clock);
        var accepted := if Signed(p.response) then Accept(setup, received, p.response, authorizing, w.clock)
            else Outcome(received, None);
        if accepted.failure.Some? {
          CaughtMarks(setup, accepted.machine, accepted.failure.value, false, w, posted, Heard(p.response));
        } else {
          ConcludeMarks(setup, accepted.machine, p.response, authorizing, forgetMissingKey, w);
        }
    }
  }

  lemma EndLockedMarks(setup: Setup, m: Machine, reason: string, w: World)
    requires Inv(setup, m) && (setup.cfg.persistent ==> Synchronized(setup.cfg, m))
    ensures var a := EndLocked(setup, m, reason, w);
            NotBehind(m.state, a.machine.state, false) && a.machine.state.storedLicenseKey == m.state.storedLicenseKey
  {
    if !(m.state.epoch.ended || (m.state.epoch.lease.None? && m.state.epoch.pendingEnd.None?)) {
      var begun := WithPendingEnd(setup, m, reason, w);
      WithPendingEndInv(setup, m, reason, w);
      assert NotBehind(m.state, begun.machine.state, false);
      if begun.failure.None? {
        var b, request := begun.machine, begun.machine.state.epoch.pendingEnd.value;
        var posted := Postings(setup.cfg, request, w);
        match Process(setup.cfg, b.ring, Final(setup.cfg, w.network), request)
        case Err(f) => CaughtMarks(setup, b, f, true, w, posted, None);
        case Ok(p) =>
          assert Inv(setup, b.(ring := p.ring));
          FinishEndMarks(setup, b.(ring := p.ring), p.response, w, posted);
      }
    }
  }

  lemma FinishEndMarks(setup: Setup, m: Machine, response: Response, w: World, posted: seq<PreparedRequest>)
    requires Inv(setup, m)
    ensures var a := FinishEnd(setup, m, response, w, posted);
            NotBehind(m.state, a.machine.state, false) && a.machine.state.storedLicenseKey == m.state.storedLicenseKey
  {
    AcceptMarks(setup, m, response, false, w.clock);
    AcceptCredential(setup, m, response, false, w.clock);
    var accepted := Accept(setup, m, response, false, w.clock);
    if accepted.failure.Some? {
      CaughtMarks(setup, accepted.machine, accepted.failure.value, true, w, posted, Heard(response));
    }
  }

  /** The credential the operation itself brings, or the one there was. */
  function Credential(m: Machine, op: Operation): Option<string> {
    if op.AuthorizeWithKey? && 0 < |op.key| <= 160 then Some(op.key) else m.state.storedLicenseKey
  }

  lemma PerformMarks(setup: Setup, m: Machine, op: Operation, w: World)
    requires Inv(setup, m) && (setup.cfg.persistent ==> Synchronized(setup.cfg, m))
    ensures var a := Perform(setup, m, op, w);
            NotBehind(m.state, a.machine.state, StartsEpoch(a, Authorizes(op))) && CredentialKept(Credential(m, op), a)
  {
    if op.End? {
      EndLockedMarks(setup, m, op.reason, w);
    } else if Sender(setup, m, op, w).Some? {
      var n := Sender(setup, m, op, w).value;
      SenderInv(setup, m, op, w);
      ExecuteMarks(setup, n, RequestOf(setup, n, op, w.jti), Authorizes(op), Forgets(op), w);
    }
  }

  /**
   * No operation and no restart of a persistent session moves a sequence back; generations go back only with a lease
   * that answers an authorize request; and only a signed KEY_NOT_FOUND erases the saved credential.
   */
  lemma OperateMarks(setup: Setup, m: Machine, op: Operation, w: World)
    requires Inv(setup, m) && setup.cfg.persistent
    ensures var a := Operate(setup, m, op, w);
            NotBehind(m.state, a.machine.state, StartsEpoch(a, Authorizes(op)))
            && (CredentialKept(Credential(m, op), a) || (a.result.Err? && a.machine.state == m.state))
  {
    if op.Restart? {
      OpenKeepsState(setup, m, w.clock(Loading));
    } else {
      LoadedInv(setup, m, op, w);
      ReloadKeepsState(setup, m, w.clock(Loading));
      var o := Loaded(setup, m, op, w);
      if o.failure.None? {
        PerformMarks(setup, o.machine, op, w);
      }
    }
  }

  lemma MarksStep(setup: Setup, m: Machine, steps: seq<Step>, answers: seq<Answer>, k: nat)
    requires Inv(setup, m) && setup.cfg.persistent && Run(setup, m, steps, answers) && k < |steps|
    ensures NotBehind(Before(m, answers, k).state, Before(m, answers, k + 1).state, true)
  {
    RunInv(setup, m, steps, answers, k);
    var n, step := Before(m, answers, k), steps[k];
    PerformsIs(setup, n, step, answers[k]);
    if answers[k] == Operate(setup, n, step.op, step.world) {
      OperateMarks(setup, n, step.op, step.world);
    } else {
      InterruptedMarks(setup, n, step.op, step.world, answers[k]);
    }
  }

  /** Wherever an operation is interrupted, it has not moved a sequence back. */
  lemma InterruptedMarks(setup: Setup, m: Machine, op: Operation, w: World, a: Answer)
    requires Inv(setup, m) && setup.cfg.persistent && Interrupted(setup, m, op, w, a)
    ensures NotBehind(m.state, a.machine.state, true)
  {
    if StopsLate(setup, m, op, w, a) {
      LoadedState(setup, m, op, w);
      LateMarks(setup, Loaded(setup, m, op, w).machine, op, w, a.machine);
    } else if StopsEarly(setup, m, op, w, a) {
      LoadedState(setup, m, op, w);
      EarlyMarks(setup, Loaded(setup, m, op, w).machine, op, w, a.machine);
    }
  }

  lemma EarlyMarks(setup: Setup, m: Machine, op: Operation, w: World, c: Machine)
    requires Early(setup, m, op, w, c)
    ensures NotBehind(m.state, c.state, true)
  {
  }

  lemma LateMarks(setup: Setup, m: Machine, op: Operation, w: World, c: Machine)
    requires Inv(setup, m) && (setup.cfg.persistent ==> Synchronized(setup.cfg, m)) && Late(setup, m, op, w, c)
    ensures NotBehind(m.state, c.state, true)
  {
    SendingInv(setup, m, op, w);
    var (received, response) := Answered(setup, m, op, w).value;
    assert Inv(setup, received);
    AcceptMarks(setup, received, response, Authorizes(op), w.clock);
    EarlyMarks(setup, m, op, w, Sending(setup, m, op, w).value.0);
  }

  /** Over every run of a persistent session the sequences never move back. */
  lemma SequencesInEveryRun(setup: Setup, m: Machine, steps: seq<Step>, answers: seq<Answer>, i: nat)
    requires Inv(setup, m) && setup.cfg.persistent && Run(setup, m, steps, answers) && i <= |steps|
    ensures NotBehind(m.state, Before(m, answers, i).state, true)
  {
    var p := (k: nat) => k <= |answers| && NotBehind(m.state, Before(m, answers, k).state, true);
    forall k: nat | k < i && p(k)
      ensures p(k + 1)
    {
      MarksStep(setup, m, steps, answers, k);
    }
    UpTo(p, i);
  }

  // ---- retries ----

  /**
   * A retry is never scheduled in the past, nor past the expiry of a lease that is still good, nor later than the
   * server or the back-off asks.
   */
  lemma RetryInTime(s: State, failures: int, now: int, retryAfter: Option<nat>, jitter: nat)
    ensures var delay := RetryDelay(s, failures, now, retryAfter, jitter);
            && 0 <= delay
            && (s.epoch.lease.Some? && now <= s.epoch.lease.value.expiresAt
                ==> now + delay <= s.epoch.lease.value.expiresAt)
            && (retryAfter.Some? ==> delay <= retryAfter.value)
            && (retryAfter.None? ==> delay <= 480)
            && (retryAfter.None? && s.epoch.lease.Some? && now <= s.epoch.lease.value.expiresAt ==>
                  3 * delay <= s.epoch.lease.value.expiresAt - now)
  {
    assert Doubled(0) == 1 && Doubled(1) == 2 && Doubled(2) == 4 && Doubled(3) == 8 && Doubled(4) == 16;
  }

  // ---- a fresh start ----

  /** Nothing in the response takes back the lease it grants. */
  predicate BringsLease(response: Response) {
    && response.lease.Some?
    && (response.status.Some? ==>
          && !response.status.value.deviceRevoked && response.status.value.grant.GrantActive?
          && response.status.value.minimumGeneration <= response.lease.value.generation
          && response.lease.value.signingKeyId !in response.status.value.revokedKids)
    && (response.decision.Some? ==> response.decision.value.disposition.Unchanged?)
  }

  /**
   * Whatever came before - an end, a revocation, a pending end request, high-water marks, a wrong clock - an accepted
   * authorize lease is usable at once, and until the boot counter reaches its expiry.
   */
  lemma FreshStart(setup: Setup, m: Machine, response: Response, clock: Clock, boot: string, lo: int, hi: int,
                   r: Reading)
    requires BringsLease(response) && !MovedBack(m.state, response, true) && !Stale(response)
    requires Restore(setup.cfg, m.state.keyTransitions + response.keyTransitions, response.keysetSequence).Ok?
    requires Steady(clock, boot, lo, hi) && r.boot == boot && r.monotonic >= hi
    requires ServerTime(response).Some? && 0 < ServerTime(response).value <= MAX_TIME
    ensures var o := Accept(setup, m, response, true, clock);
            && o.failure.None?
            && (UsableLease(setup.cfg, o.machine.state, r) == response.lease
                <==> TimeAt(o.machine.state.time, r.monotonic) < response.lease.value.expiresAt)
            && o.machine.state.time.serverAnchor == ServerTime(response).value
  {
    var links := m.state.keyTransitions + response.keyTransitions;
    var s := Committed(m.state, links, response, true, clock(Anchoring));
    var ring := Restore(setup.cfg, links, response.keysetSequence).value;
    GrantedEpoch(m.state.epoch, response);
    PersistPaced(setup, m.(state := s, ring := ring), boot, clock(Anchoring).monotonic, clock(SavingAccepted));
    var t := Persist(setup, m.(state := s, ring := ring), clock(SavingAccepted)).state;
    OfflineTime(setup.cfg, t, boot, clock(SavingAccepted).monotonic, r, r.wall);
  }

  lemma GrantedEpoch(e: Epoch, response: Response)
    requires BringsLease(response)
    ensures var j := Judged(e, response, true);
            j.lease == response.lease && !j.ending && !j.ended && !j.revoked && !j.serverExpired && j.pendingEnd == None
  {
  }
}
