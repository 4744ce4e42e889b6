/** The session's time: what the boot counter, the wall clock and reboots can and cannot change. */
module Clocks {
  import opened Outcomes
  import opened Tokens
  import opened KeyChain
  import opened Exchange
  import opened Persistence
  import opened Session
  import opened Crashes
  import opened Safety

  // ---- within one boot ----

  /** The anchor plus the seconds counted since, saturated at the largest timestamp. */
  function TimeAt(t: Checkpoint, monotonic: int): int {
    t.serverAnchor + Min((monotonic - t.anchorMonotonic) / 1000, MAX_TIME - t.serverAnchor)
  }

  /** With a server anchor, the checkpoint belongs to this boot and lies between the anchor and the counter's time. */
  ghost predicate Paced(t: Checkpoint, boot: string, now: int) {
    t.serverAnchor > 0 ==>
      && !t.clockUntrusted && t.bootIdentifier == boot && t.anchorMonotonic <= now && t.serverAnchor <= MAX_TIME
      && t.serverAnchor <= t.lastKnownGood <= TimeAt(t, now)
  }

  lemma PacedLater(t: Checkpoint, boot: string, now: int, later: int)
    requires Paced(t, boot, now) && now <= later
    ensures Paced(t, boot, later)
  {
  }

  /** Anchored offline time: exactly the counter's time, trusted, and independent of the wall clock. */
  lemma OfflineTime(cfg: Config, s: State, boot: string, now: int, r: Reading, wall: int)
    requires Paced(s.time, boot, now) && s.time.serverAnchor > 0 && r.boot == boot && now <= r.monotonic
    ensures EffectiveNow(s.time, r) == TimeAt(s.time, r.monotonic)
    ensures !Untrusted(cfg, s.time, r)
    ensures UsableLease(cfg, s, r) == UsableLease(cfg, s, r.(wall := wall))
  {
    PacedLater(s.time, boot, now, r.monotonic);
  }

  /** A lease is usable exactly until the counter's time reaches its expiry. */
  lemma UsableUntilExpiry(cfg: Config, s: State, boot: string, now: int, r: Reading)
    requires Paced(s.time, boot, now) && s.time.serverAnchor > 0 && r.boot == boot && now <= r.monotonic
    requires Coherent(s.epoch) && s.epoch.lease.Some? && !s.epoch.ending && !s.epoch.serverExpired
    ensures UsableLease(cfg, s, r) == s.epoch.lease <==> TimeAt(s.time, r.monotonic) < s.epoch.lease.value.expiresAt
  {
    OfflineTime(cfg, s, boot, now, r, r.wall);
  }

  /** The counter never decreases from lo, over the moments of an operation, to hi, all in one boot. */
  ghost predicate Steady(c: Clock, boot: string, lo: int, hi: int) {
    && (forall moment: Moment :: c(moment).boot == boot)
    && lo <= c(Loading).monotonic <= c(Deciding).monotonic <= c(SavingFirst).monotonic <= c(Anchoring).monotonic
        <= c(SavingAccepted).monotonic
    && c(SavingAccepted).monotonic <= c(SavingLast).monotonic <= c(Retrying).monotonic <= c(SavingRetry).monotonic
    && c(SavingRetry).monotonic <= c(Answering).monotonic <= hi
  }

  lemma PersistPaced(setup: Setup, m: Machine, boot: string, now: int, r: Reading)
    requires Paced(m.state.time, boot, now) && r.boot == boot && now <= r.monotonic
    ensures Paced(Persist(setup, m, r).state.time, boot, r.monotonic)
  {
    PacedLater(m.state.time, boot, now, r.monotonic);
  }

  /** Every time a response brings is a timestamp. */
  lemma ServerTimeRange(cfg: Config, ring: Ring, raw: Raw, request: PreparedRequest)
    requires Process(cfg, ring, raw, request).Ok?
    ensures var time := ServerTime(Process(cfg, ring, raw, request).value.response);
            time.Some? ==> Timestamp(time.value)
  {
    ProcessExtends(cfg, ring, raw, request);
    ProcessVerifies(cfg, ring, raw, request);
  }

  /** A committed response anchors the clock anew, whatever the checkpoint was before. */
  lemma CommitPaced(setup: Setup, m: Machine, response: Response, authorizing: bool, c: Clock, boot: string, lo: int,
                    hi: int)
    requires Commits(setup.cfg, m.state, response, authorizing) && Steady(c, boot, lo, hi)
    requires ServerTime(response).Some? && Timestamp(ServerTime(response).value)
    ensures Paced(Accept(setup, m, response, authorizing, c).machine.state.time, boot, c(SavingAccepted).monotonic)
  {
    var links := m.state.keyTransitions + response.keyTransitions;
    var s := Committed(m.state, links, response, authorizing, c(Anchoring));
    var ring := Restore(setup.cfg, links, response.keysetSequence).value;
    PersistPaced(setup, m.(state := s, ring := ring), boot, c(Anchoring).monotonic, c(SavingAccepted));
  }

  lemma AcceptPaced(setup: Setup, m: Machine, response: Response, authorizing: bool, c: Clock, boot: string, lo: int,
                    hi: int, now: int)
    requires Inv(setup, m) && Steady(c, boot, lo, hi) && Paced(m.state.time, boot, now) && now <= c(Anchoring).monotonic
    requires ServerTime(response).Some? ==> Timestamp(ServerTime(response).value)
    ensures Paced(Accept(setup, m, response, authorizing, c).machine.state.time, boot, c(SavingAccepted).monotonic)
  {
    var r := c(Anchoring);
    PacedLater(m.state.time, boot, now, r.monotonic);
    PacedLater(m.state.time, boot, now, c(SavingAccepted).monotonic);
    if !MovedBack(m.state, response, authorizing) {
      if Stale(response) {
        ReloadKeepsState(setup, m, r);
      } else {
        var links := m.state.keyTransitions + response.keyTransitions;
        var restored := Restore(setup.cfg, links, response.keysetSequence);
        if restored.Ok? {
          var s := Committed(m.state, links, response, authorizing, r);
          assert Paced(s.time, boot, r.monotonic);
          PersistPaced(setup, m.(state := s, ring := restored.value), boot, r.monotonic, c(SavingAccepted));
        }
      }
    }
  }

  lemma ScheduleRetryPaced(setup: Setup, m: Machine, retryAfter: Option<nat>, jitter: nat, c: Clock, boot: string,
                           lo: int, hi: int, now: int)
    requires Steady(c, boot, lo, hi) && Paced(m.state.time, boot, now) && now <= c(Retrying).monotonic
    ensures Paced(ScheduleRetry(setup, m, retryAfter, jitter, c).state.time, boot, hi)
  {
    var failures := Min(m.state.retryFailures + 1, 30);
    var s := m.state.(retryFailures := failures,
                      nextRetry := c(Retrying).wall + RetryDelay(m.state, failures, c(Retrying).wall, retryAfter,
                                                                 jitter));
    PersistPaced(setup, m.(state := s), boot, now, c(SavingRetry));
    PacedLater(ScheduleRetry(setup, m, retryAfter, jitter, c).state.time, boot, c(SavingRetry).monotonic, hi);
  }

  lemma ConcludePaced(setup: Setup, m: Machine, response: Response, authorizing: bool, forgetMissingKey: bool, w: World,
                      boot: string, lo: int, hi: int)
    requires Steady(w.clock, boot, lo, hi) && Paced(m.state.time, boot, w.clock(SavingAccepted).monotonic)
    ensures Paced(Conclude(setup, m, response, authorizing, forgetMissingKey, w).0.state.time, boot, hi)
  {
    var c := w.clock;
    var forgotten := m.(state := m.state.(storedLicenseKey := None));
    PersistPaced(setup, forgotten, boot, c(SavingAccepted).monotonic, c(SavingLast));
    var kept := Persist(setup, forgotten, c(SavingLast));
    ScheduleRetryPaced(setup, m, response.retryAfter, w.jitter, c, boot, lo, hi, c(SavingAccepted).monotonic);
    ScheduleRetryPaced(setup, kept, response.retryAfter, w.jitter, c, boot, lo, hi, c(SavingLast).monotonic);
    PacedLater(m.state.time, boot, c(SavingAccepted).monotonic, hi);
    PacedLater(kept.state.time, boot, c(SavingLast).monotonic, hi);
  }

  lemma CaughtPaced(setup: Setup, m: Machine, failure: Failure, ending: bool, w: World, posted: seq<PreparedRequest>,
                    heard: Option<Response>, boot: string, lo: int, hi: int, now: int)
    requires Steady(w.clock, boot, lo, hi) && Paced(m.state.time, boot, now) && now <= w.clock(Retrying).monotonic
    ensures Paced(Caught(setup, m, failure, ending, w, posted, heard).machine.state.time, boot, hi)
  {
    PacedLater(m.state.time, boot, now, hi);
    ScheduleRetryPaced(setup, m, None, w.jitter, w.clock, boot, lo, hi, now);
  }

  /** What endLocked does after accept keeps pace. */
  lemma FinishPaced(setup: Setup, accepted: Outcome, response: Response, w: World, posted: seq<PreparedRequest>,
                    boot: string, lo: int, hi: int)
    requires Steady(w.clock, boot, lo, hi)
    requires Paced(accepted.machine.state.time, boot, w.clock(SavingAccepted).monotonic)
    ensures Paced(Finish(setup, accepted, response, w, posted).machine.state.time, boot, hi)
  {
    var m, now := accepted.machine, w.clock(SavingAccepted).monotonic;
    PacedLater(m.state.time, boot, now, hi);
    if accepted.failure.Some? {
      CaughtPaced(setup, m, accepted.failure.value, true, w, posted, Heard(response), boot, lo, hi, now);
    }
    var ended := m.(state := m.state.(epoch := m.state.epoch.(ending := false, ended := true, lease := None,
                                                              leaseCompact := None, pendingEnd := None)));
    PersistPaced(setup, ended, boot, now, w.clock(SavingLast));
    PacedLater(Persist(setup, ended, w.clock(SavingLast)).state.time, boot, w.clock(SavingLast).monotonic, hi);
  }

  lemma EarlyPaced(setup: Setup, m: Machine, op: Operation, w: World, c: Machine, boot: string, lo: int, hi: int)
    requires Early(setup, m, op, w, c) && Steady(w.clock, boot, lo, hi) && Paced(m.state.time, boot, lo)
    ensures Paced(c.state.time, boot, w.clock(SavingFirst).monotonic)
  {
    PacedLater(m.state.time, boot, lo, w.clock(SavingFirst).monotonic);
    if c != m {
      var s := m.state.(epoch := c.state.epoch, storedLicenseKey := c.state.storedLicenseKey);
      assert c == Persist(setup, m.(state := s), w.clock(SavingFirst));
      PersistPaced(setup, m.(state := s), boot, lo, w.clock(SavingFirst));
    }
  }

  /** The checkpoint is in pace before, or accept commits to the response: it is in pace after accept. */
  lemma TakenPaced(setup: Setup, m: Machine, op: Operation, w: World, boot: string, lo: int, hi: int)
    requires Inv(setup, m) && (setup.cfg.persistent ==> Synchronized(setup.cfg, m)) && Taken(setup, m, op, w).Some?
    requires Steady(w.clock, boot, lo, hi)
    requires var response := Answered(setup, m, op, w).value.1;
             || Paced(m.state.time, boot, lo)
             || (Signed(response) && Commits(setup.cfg, m.state, response, Authorizes(op)))
    ensures Paced(Taken(setup, m, op, w).value.machine.state.time, boot, w.clock(SavingAccepted).monotonic)
  {
    SendingInv(setup, m, op, w);
    var (n, request) := Sending(setup, m, op, w).value;
    var (received, response) := Answered(setup, m, op, w).value;
    ServerTimeRange(setup.cfg, n.ring, Final(setup.cfg, w.network), request);
    assert Inv(setup, received);
    if Paced(m.state.time, boot, lo) {
      EarlyPaced(setup, m, op, w, n, boot, lo, hi);
      AcceptPaced(setup, received, response, Authorizes(op), w.clock, boot, lo, hi, w.clock(SavingFirst).monotonic);
    } else {
      SendingCommits(setup, m, op, w, response);
      CommitPaced(setup, received, response, Authorizes(op), w.clock, boot, lo, hi);
    }
  }

  /** Whether accept commits does not depend on what is saved before the request is sent. */
  lemma SendingCommits(setup: Setup, m: Machine, op: Operation, w: World, response: Response)
    requires Sending(setup, m, op, w).Some?
    ensures Commits(setup.cfg, m.state, response, Authorizes(op))
            <==> Commits(setup.cfg, Sending(setup, m, op, w).value.0.state, response, Authorizes(op))
  {
  }

  lemma LatePaced(setup: Setup, m: Machine, op: Operation, w: World, c: Machine, boot: string, lo: int, hi: int)
    requires Late(setup, m, op, w, c) && Steady(w.clock, boot, lo, hi)
    requires Paced(Taken(setup, m, op, w).value.machine.state.time, boot, w.clock(SavingAccepted).monotonic)
    ensures Paced(c.state.time, boot, hi)
  {
    var n, now := Taken(setup, m, op, w).value.machine, w.clock(SavingAccepted).monotonic;
    PacedLater(n.state.time, boot, now, hi);
    var forgotten := n.(state := n.state.(storedLicenseKey := None));
    PersistPaced(setup, forgotten, boot, now, w.clock(SavingLast));
    PacedLater(Persist(setup, forgotten, w.clock(SavingLast)).state.time, boot, w.clock(SavingLast).monotonic, hi);
  }

  lemma FinishExecutePaced(setup: Setup, m: Machine, response: Response, authorizing: bool, forgetMissingKey: bool,
                           w: World, posted: seq<PreparedRequest>, boot: string, lo: int, hi: int)
    requires Steady(w.clock, boot, lo, hi)
    requires var o := if Signed(response) then Accept(setup, m, response, authorizing, w.clock) else Outcome(m, None);
             Paced(o.machine.state.time, boot, w.clock(SavingAccepted).monotonic)
    ensures var a := FinishExecute(setup, m, response, authorizing, forgetMissingKey, w, posted);
            Paced(a.machine.state.time, boot, hi)
  {
    var o := if Signed(response) then Accept(setup, m, response, authorizing, w.clock) else Outcome(m, None);
    if o.failure.Some? {
      CaughtPaced(setup, o.machine, o.failure.value, false, w, posted, Heard(response), boot, lo, hi,
                  w.clock(SavingAccepted).monotonic);
    } else {
      ConcludePaced(setup, o.machine, response, authorizing, forgetMissingKey, w, boot, lo, hi);
    }
  }

  /** The rest of the operation, once accept is done. */
  lemma AfterPaced(setup: Setup, m: Machine, op: Operation, w: World, boot: string, lo: int, hi: int)
    requires Taken(setup, m, op, w).Some? && Steady(w.clock, boot, lo, hi)
    requires Paced(Taken(setup, m, op, w).value.machine.state.time, boot, w.clock(SavingAccepted).monotonic)
    ensures Paced(Perform(setup, m, op, w).machine.state.time, boot, hi)
  {
    var (received, response) := Answered(setup, m, op, w).value;
    var posted := Postings(setup.cfg, Sending(setup, m, op, w).value.1, w);
    if op.End? {
      FinishPaced(setup, Taken(setup, m, op, w).value, response, w, posted, boot, lo, hi);
    } else {
      PerformTaken(setup, m, op, w);
      FinishExecutePaced(setup, received, response, Authorizes(op), Forgets(op), w, posted, boot, lo, hi);
    }
  }

  /** An operation whose response does not get to accept keeps pace. */
  lemma UntakenPaced(setup: Setup, m: Machine, op: Operation, w: World, boot: string, lo: int, hi: int)
    requires Taken(setup, m, op, w).None? && Steady(w.clock, boot, lo, hi) && Paced(m.state.time, boot, lo)
    ensures Paced(Perform(setup, m, op, w).machine.state.time, boot, hi)
  {
    PacedLater(m.state.time, boot, lo, hi);
    if Sending(setup, m, op, w).Some? {
      UnansweredPaced(setup, m, op, w, boot, lo, hi);
    } else if !op.End? && Sender(setup, m, op, w).Some? {
      var n := Sender(setup, m, op, w).value;
      EarlyPaced(setup, m, op, w, n, boot, lo, hi);
      PacedLater(n.state.time, boot, w.clock(SavingFirst).monotonic, hi);
    }
  }

  lemma UnansweredPaced(setup: Setup, m: Machine, op: Operation, w: World, boot: string, lo: int, hi: int)
    requires Sending(setup, m, op, w).Some? && Taken(setup, m, op, w).None?
    requires Steady(w.clock, boot, lo, hi) && Paced(m.state.time, boot, lo)
    ensures Paced(Perform(setup, m, op, w).machine.state.time, boot, hi)
  {
    var (n, request) := Sending(setup, m, op, w).value;
    var now, posted := w.clock(SavingFirst).monotonic, Postings(setup.cfg, request, w);
    assert Early(setup, m, op, w, n);
    EarlyPaced(setup, m, op, w, n, boot, lo, hi);
    match Process(setup.cfg, n.ring, Final(setup.cfg, w.network), request)
    case Err(f) =>
      CaughtPaced(setup, n, f, op.End?, w, posted, None, boot, lo, hi, now);
    case Ok(p) =>
      var received := n.(ring := p.ring);
      PacedLater(n.state.time, boot, now, w.clock(SavingAccepted).monotonic);
      if op.End? {
        ScheduleRetryPaced(setup, received, p.response.retryAfter, w.jitter, w.clock, boot, lo, hi, now);
      } else {
        FinishExecutePaced(setup, received, p.response, Authorizes(op), Forgets(op), w, posted, boot, lo, hi);
      }
  }

  lemma RestartedPaced(setup: Setup, m: Machine, w: World, boot: string, lo: int, hi: int)
    requires Inv(setup, m) && Steady(w.clock, boot, lo, hi) && Paced(m.state.time, boot, lo)
    requires Restarted(setup, m, w).failure.None?
    ensures Paced(Restarted(setup, m, w).machine.state.time, boot, hi)
  {
    if setup.cfg.persistent {
      OpenKeepsState(setup, m, w.clock(Loading));
      var (s, ring) := Open(setup, m.store.value, setup.cfg.thumbprint, setup.cfg.keyReference, w.clock(Loading)).value;
      PersistPaced(setup, Machine(s, ring, m.store, m.written), boot, lo, w.clock(SavingFirst));
    }
    PacedLater(Restarted(setup, m, w).machine.state.time, boot, w.clock(SavingFirst).monotonic, hi);
  }

  /** accept committed to the signed response that the operation heard. */
  predicate Adopts(cfg: Config, m: Machine, op: Operation, a: Answer) {
    a.heard.Some? && Commits(cfg, m.state, a.heard.value, Authorizes(op))
  }

  lemma PerformPaced(setup: Setup, m: Machine, op: Operation, w: World, boot: string, lo: int, hi: int)
    requires Inv(setup, m) && (setup.cfg.persistent ==> Synchronized(setup.cfg, m)) && Steady(w.clock, boot, lo, hi)
    requires Paced(m.state.time, boot, lo) || Adopts(setup.cfg, m, op, Perform(setup, m, op, w))
    ensures Paced(Perform(setup, m, op, w).machine.state.time, boot, hi)
  {
    HeardIs(setup, m, op, w);
    if Taken(setup, m, op, w).Some? {
      TakenPaced(setup, m, op, w, boot, lo, hi);
      AfterPaced(setup, m, op, w, boot, lo, hi);
    } else {
      UntakenPaced(setup, m, op, w, boot, lo, hi);
    }
  }

  lemma OperatePaced(setup: Setup, m: Machine, op: Operation, w: World, boot: string, lo: int, hi: int)
    requires Inv(setup, m) && Steady(w.clock, boot, lo, hi)
    requires Paced(m.state.time, boot, lo) || Adopts(setup.cfg, m, op, Operate(setup, m, op, w))
    ensures Paced(Operate(setup, m, op, w).machine.state.time, boot, hi)
  {
    LoadedInv(setup, m, op, w);
    var o := Loaded(setup, m, op, w);
    if Paced(m.state.time, boot, lo) {
      PacedLater(m.state.time, boot, lo, hi);
    }
    if op.Restart? {
      if o.failure.None? {
        RestartedPaced(setup, m, w, boot, lo, hi);
      }
    } else {
      ReloadKeepsState(setup, m, w.clock(Loading));
      if o.failure.None? {
        PerformPaced(setup, o.machine, op, w, boot, lo, hi);
      }
    }
  }

  lemma StopsEarlyPaced(setup: Setup, m: Machine, op: Operation, w: World, a: Answer, boot: string, lo: int, hi: int)
    requires Inv(setup, m) && setup.cfg.persistent && StopsEarly(setup, m, op, w, a)
    requires Steady(w.clock, boot, lo, hi) && Paced(m.state.time, boot, lo)
    ensures Paced(a.machine.state.time, boot, hi)
  {
    LoadedState(setup, m, op, w);
    EarlyPaced(setup, Loaded(setup, m, op, w).machine, op, w, a.machine, boot, lo, hi);
    PacedLater(a.machine.state.time, boot, w.clock(SavingFirst).monotonic, hi);
  }

  lemma StopsLatePaced(setup: Setup, m: Machine, op: Operation, w: World, a: Answer, boot: string, lo: int, hi: int)
    requires Inv(setup, m) && setup.cfg.persistent && StopsLate(setup, m, op, w, a) && Steady(w.clock, boot, lo, hi)
    requires Paced(m.state.time, boot, lo) || Adopts(setup.cfg, m, op, a)
    ensures Paced(a.machine.state.time, boot, hi)
  {
    LoadedState(setup, m, op, w);
    var loaded := Loaded(setup, m, op, w).machine;
    LoadedLog(setup, m, op, w);
    HeardIs(setup, loaded, op, w);
    TakenPaced(setup, loaded, op, w, boot, lo, hi);
    LatePaced(setup, loaded, op, w, a.machine, boot, lo, hi);
  }

  lemma InterruptedPaced(setup: Setup, m: Machine, op: Operation, w: World, a: Answer, boot: string, lo: int, hi: int)
    requires Inv(setup, m) && setup.cfg.persistent && Interrupted(setup, m, op, w, a) && Steady(w.clock, boot, lo, hi)
    requires Paced(m.state.time, boot, lo) || Adopts(setup.cfg, m, op, a)
    ensures Paced(a.machine.state.time, boot, hi)
  {
    if StopsLate(setup, m, op, w, a) {
      StopsLatePaced(setup, m, op, w, a, boot, lo, hi);
    } else if StopsEarly(setup, m, op, w, a) {
      StopsEarlyPaced(setup, m, op, w, a, boot, lo, hi);
    } else {
      PacedLater(m.state.time, boot, lo, hi);
    }
  }

  /**
   * Every operation, restarts of the process and interruptions included, keeps the checkpoint in pace with the boot
   * counter; and one whose response accept commits to brings it in pace, whatever it was.
   */
  lemma StepPaced(setup: Setup, m: Machine, step: Step, a: Answer, boot: string, lo: int, hi: int)
    requires Inv(setup, m) && Performs(setup)(m, step, a) && Steady(step.world.clock, boot, lo, hi)
    requires Paced(m.state.time, boot, lo) || Adopts(setup.cfg, m, step.op, a)
    ensures Paced(a.machine.state.time, boot, hi)
  {
    PerformsIs(setup, m, step, a);
    if a == Operate(setup, m, step.op, step.world) {
      OperatePaced(setup, m, step.op, step.world, boot, lo, hi);
    } else {
      InterruptedPaced(setup, m, step.op, step.world, a, boot, lo, hi);
    }
  }

  /** From step k on: one boot, the counter never decreasing from operation to operation. */
  ghost predicate OneBootSince(steps: seq<Step>, k: nat, boot: string, marks: seq<int>) {
    && |marks| == |steps| + 1
    && forall j | k <= j < |steps| :: Steady(steps[j].world.clock, boot, marks[j], marks[j + 1])
  }

  /** In pace before step j, by the counter's mark for it. */
  ghost predicate PacedAt(m: Machine, answers: seq<Answer>, boot: string, marks: seq<int>, j: nat)
    requires j <= |answers| && j < |marks|
  {
    Paced(Before(m, answers, j).state.time, boot, marks[j])
  }

  lemma PacedStep(setup: Setup, m: Machine, steps: seq<Step>, answers: seq<Answer>, k: nat, boot: string,
                  marks: seq<int>, j: nat)
    requires Inv(setup, m) && Run(setup, m, steps, answers) && OneBootSince(steps, k, boot, marks) && k <= j < |steps|
    requires PacedAt(m, answers, boot, marks, j) || Adopts(setup.cfg, Before(m, answers, j), steps[j].op, answers[j])
    ensures PacedAt(m, answers, boot, marks, j + 1)
  {
    RunInv(setup, m, steps, answers, j);
    StepPaced(setup, Before(m, answers, j), steps[j], answers[j], boot, marks[j], marks[j + 1]);
  }

  lemma {:induction false} RunPaced(setup: Setup, m: Machine, steps: seq<Step>, answers: seq<Answer>, k: nat,
                                    boot: string, marks: seq<int>, i: nat)
    requires Inv(setup, m) && Run(setup, m, steps, answers) && k < i <= |steps|
    requires Adopts(setup.cfg, Before(m, answers, k), steps[k].op, answers[k]) && OneBootSince(steps, k, boot, marks)
    ensures PacedAt(m, answers, boot, marks, i)
    decreases i
  {
    if k < i - 1 {
      RunPaced(setup, m, steps, answers, k, boot, marks, i - 1);
    }
    PacedStep(setup, m, steps, answers, k, boot, marks, i - 1);
  }

  /**
   * Over every run: from any operation on whose signed response was accepted, while the boot lasts and its counter does
   * not decrease, the effective time at any later reading is the anchor plus the seconds counted, the clock is trusted,
   * the wall clock has no say, and a lease is usable exactly until the counter reaches its expiry. What came before,
   * other boots and decreasing or wrong clocks included, does not matter.
   */
  lemma OfflineTimeInEveryRun(setup: Setup, saved: Option<Document>, first: World, steps: seq<Step>,
                              answers: seq<Answer>, k: nat, boot: string, marks: seq<int>, i: nat, r: Reading,
                                  wall: int)
    requires Starts(setup, saved, first) && Run(setup, Start(setup, saved, first), steps, answers) && k < i <= |steps|
    requires Adopts(setup.cfg, Before(Start(setup, saved, first), answers, k), steps[k].op, answers[k])
    requires OneBootSince(steps, k, boot, marks) && r.boot == boot && marks[i] <= r.monotonic
    ensures var s := Before(Start(setup, saved, first), answers, i).state;
            s.time.serverAnchor > 0 ==>
              && EffectiveNow(s.time, r) == TimeAt(s.time, r.monotonic)
              && !Untrusted(setup.cfg, s.time, r)
              && UsableLease(setup.cfg, s, r) == UsableLease(setup.cfg, s, r.(wall := wall))
              && (s.epoch.lease.Some? && !s.epoch.ending && !s.epoch.serverExpired ==>
                    (UsableLease(setup.cfg, s, r) == s.epoch.lease
                     <==> TimeAt(s.time, r.monotonic) < s.epoch.lease.value.expiresAt))
  {
    var m := Start(setup, saved, first);
    EveryRun(setup, saved, first, steps, answers, i);
    StartInv(setup, saved, first);
    RunPaced(setup, m, steps, answers, k, boot, marks, i);
    var s := Before(m, answers, i).state;
    if s.time.serverAnchor > 0 {
      OfflineTime(setup.cfg, s, boot, marks[i], r, wall);
      if s.epoch.lease.Some? && !s.epoch.ending && !s.epoch.serverExpired {
        UsableUntilExpiry(setup.cfg, s, boot, marks[i], r);
      }
    }
  }

  // ---- across boots, with any clock ----

  /** The same anchor, and a last known good time that has not moved back. */
  predicate Later(t: Checkpoint, u: Checkpoint) {
    u == t.(lastKnownGood := u.lastKnownGood) && t.lastKnownGood <= u.lastKnownGood
  }

  /** Saving never moves the last known good time back. */
  lemma PersistLater(setup: Setup, m: Machine, r: Reading)
    ensures Later(m.state.time, Persist(setup, m, r).state.time)
    ensures setup.cfg.persistent ==> Persist(setup, m, r).state.time.lastKnownGood >= EffectiveNow(m.state.time, r)
  {
  }

  lemma ScheduleRetryLater(setup: Setup, m: Machine, retryAfter: Option<nat>, jitter: nat, c: Clock)
    ensures Later(m.state.time, ScheduleRetry(setup, m, retryAfter, jitter, c).state.time)
  {
  }

  lemma CaughtLater(setup: Setup, m: Machine, failure: Failure, ending: bool, w: World, posted: seq<PreparedRequest>,
                    heard: Option<Response>)
    ensures Later(m.state.time, Caught(setup, m, failure, ending, w, posted, heard).machine.state.time)
  {
    ScheduleRetryLater(setup, m, None, w.jitter, w.clock);
  }

  lemma FinishExecuteLater(setup: Setup, m: Machine, response: Response, authorizing: bool, forgetMissingKey: bool,
                           w: World, posted: seq<PreparedRequest>)
    ensures var o := if Signed(response) then Accept(setup, m, response, authorizing, w.clock) else Outcome(m, None);
            Later(o.machine.state.time,
                  FinishExecute(setup, m, response, authorizing, forgetMissingKey, w, posted).machine.state.time)
  {
    var o := if Signed(response) then Accept(setup, m, response, authorizing, w.clock) else Outcome(m, None);
    if o.failure.Some? {
      CaughtLater(setup, o.machine, o.failure.value, false, w, posted, Heard(response));
    } else {
      ScheduleRetryLater(setup, Keeping(setup, o.machine, response, forgetMissingKey, w), response.retryAfter,
                         w.jitter, w.clock);
    }
  }

  lemma FinishLater(setup: Setup, accepted: Outcome, response: Response, w: World, posted: seq<PreparedRequest>)
    ensures Later(accepted.machine.state.time, Finish(setup, accepted, response, w, posted).machine.state.time)
  {
    if accepted.failure.Some? {
      CaughtLater(setup, accepted.machine, accepted.failure.value, true, w, posted, Heard(response));
    }
  }

  lemma EarlyLater(setup: Setup, m: Machine, op: Operation, w: World, c: Machine)
    requires Early(setup, m, op, w, c)
    ensures Later(m.state.time, c.state.time)
  {
  }

  /** What the answer of an operation makes of the checkpoint: a new anchor, if accept commits to it. */
  function AnchorAfter(cfg: Config, m: Machine, op: Operation, a: Answer, r: Reading): Checkpoint {
    if Adopts(cfg, m, op, a) then Anchored(m.state.time, a.heard.value, r) else m.state.time
  }

  lemma AnchorTaken(setup: Setup, m: Machine, op: Operation, w: World, r: Reading)
    requires Taken(setup, m, op, w).Some?
    ensures var response := Answered(setup, m, op, w).value.1;
            AnchorAfter(setup.cfg, m, op, Perform(setup, m, op, w), r)
            == if Commits(setup.cfg, m.state, response, Authorizes(op)) then Anchored(m.state.time, response, r)
               else m.state.time
  {
    HeardIs(setup, m, op, w);
  }

  lemma TakenLater(setup: Setup, m: Machine, op: Operation, w: World)
    requires Inv(setup, m) && (setup.cfg.persistent ==> Synchronized(setup.cfg, m)) && Taken(setup, m, op, w).Some?
    ensures Later(AnchorAfter(setup.cfg, m, op, Perform(setup, m, op, w), w.clock(Anchoring)),
                  Taken(setup, m, op, w).value.machine.state.time)
  {
    AnchorTaken(setup, m, op, w, w.clock(Anchoring));
    SendingInv(setup, m, op, w);
    var n := Sending(setup, m, op, w).value.0;
    var (received, response) := Answered(setup, m, op, w).value;
    SendingCommits(setup, m, op, w, response);
    EarlyLater(setup, m, op, w, n);
    assert Inv(setup, received);
    AcceptLater(setup, received, response, Authorizes(op), w.clock);
    AnchoredLater(m.state.time, n.state.time, response, w.clock(Anchoring));
  }

  /** What is saved before the request makes no difference to a new anchor. */
  lemma AnchoredLater(t: Checkpoint, u: Checkpoint, response: Response, r: Reading)
    requires Later(t, u)
    ensures Later(Anchored(t, response, r), Anchored(u, response, r))
  {
  }

  lemma AcceptLater(setup: Setup, m: Machine, response: Response, authorizing: bool, c: Clock)
    requires Inv(setup, m)
    ensures Later(if Commits(setup.cfg, m.state, response, authorizing)
                  then Anchored(m.state.time, response, c(Anchoring)) else m.state.time,
                  Accept(setup, m, response, authorizing, c).machine.state.time)
  {
    if !MovedBack(m.state, response, authorizing) && Stale(response) {
      ReloadKeepsState(setup, m, c(Anchoring));
    }
  }

  /** The rest of the operation, once accept is done. */
  lemma AfterLater(setup: Setup, m: Machine, op: Operation, w: World)
    requires Taken(setup, m, op, w).Some?
    ensures Later(Taken(setup, m, op, w).value.machine.state.time, Perform(setup, m, op, w).machine.state.time)
  {
    var (received, response) := Answered(setup, m, op, w).value;
    var posted := Postings(setup.cfg, Sending(setup, m, op, w).value.1, w);
    if op.End? {
      FinishLater(setup, Taken(setup, m, op, w).value, response, w, posted);
    } else {
      PerformTaken(setup, m, op, w);
      FinishExecuteLater(setup, received, response, Authorizes(op), Forgets(op), w, posted);
    }
  }

  lemma UntakenLater(setup: Setup, m: Machine, op: Operation, w: World)
    requires Taken(setup, m, op, w).None?
    ensures Later(m.state.time, Perform(setup, m, op, w).machine.state.time)
  {
    if Sending(setup, m, op, w).Some? {
      UnansweredLater(setup, m, op, w);
    } else if !op.End? && Sender(setup, m, op, w).Some? {
      EarlyLater(setup, m, op, w, Sender(setup, m, op, w).value);
    }
  }

  lemma UnansweredLater(setup: Setup, m: Machine, op: Operation, w: World)
    requires Sending(setup, m, op, w).Some? && Taken(setup, m, op, w).None?
    ensures Later(m.state.time, Perform(setup, m, op, w).machine.state.time)
  {
    var (n, request) := Sending(setup, m, op, w).value;
    var posted := Postings(setup.cfg, request, w);
    assert Early(setup, m, op, w, n);
    EarlyLater(setup, m, op, w, n);
    match Process(setup.cfg, n.ring, Final(setup.cfg, w.network), request)
    case Err(f) => CaughtLater(setup, n, f, op.End?, w, posted, None);
    case Ok(p) =>
      var received := n.(ring := p.ring);
      if op.End? {
        ScheduleRetryLater(setup, received, p.response.retryAfter, w.jitter, w.clock);
      } else {
        FinishExecuteLater(setup, received, p.response, Authorizes(op), Forgets(op), w, posted);
      }
  }

  lemma PerformLater(setup: Setup, m: Machine, op: Operation, w: World)
    requires Inv(setup, m) && (setup.cfg.persistent ==> Synchronized(setup.cfg, m))
    ensures var a := Perform(setup, m, op, w);
            Later(AnchorAfter(setup.cfg, m, op, a, w.clock(Anchoring)), a.machine.state.time)
  {
    HeardIs(setup, m, op, w);
    if Taken(setup, m, op, w).Some? {
      TakenLater(setup, m, op, w);
      AfterLater(setup, m, op, w);
    } else {
      UntakenLater(setup, m, op, w);
    }
  }

  lemma OperateLater(setup: Setup, m: Machine, op: Operation, w: World)
    requires Inv(setup, m) && setup.cfg.persistent
    ensures var a := Operate(setup, m, op, w);
            Later(AnchorAfter(setup.cfg, m, op, a, w.clock(Anchoring)), a.machine.state.time)
  {
    LoadedLater(setup, m, op, w);
    LoadedInv(setup, m, op, w);
    var o := Loaded(setup, m, op, w);
    if o.failure.None? {
      PerformLater(setup, o.machine, op, w);
      if op.Restart? {
        HeardIs(setup, o.machine, op, w);
      }
    }
  }

  lemma LoadedLater(setup: Setup, m: Machine, op: Operation, w: World)
    requires Inv(setup, m) && setup.cfg.persistent
    ensures var o := Loaded(setup, m, op, w).machine;
            if op.Restart? then Later(m.state.time, o.state.time) else o.state == m.state
  {
    if op.Restart? {
      OpenKeepsState(setup, m, w.clock(Loading));
    } else {
      ReloadKeepsState(setup, m, w.clock(Loading));
    }
  }

  lemma StopsLateLater(setup: Setup, m: Machine, op: Operation, w: World, a: Answer)
    requires Inv(setup, m) && setup.cfg.persistent && StopsLate(setup, m, op, w, a)
    ensures Later(AnchorAfter(setup.cfg, m, op, a, w.clock(Anchoring)), a.machine.state.time)
  {
    LoadedState(setup, m, op, w);
    LoadedLog(setup, m, op, w);
    TakenLater(setup, Loaded(setup, m, op, w).machine, op, w);
  }

  lemma StopsEarlyLater(setup: Setup, m: Machine, op: Operation, w: World, a: Answer)
    requires Inv(setup, m) && setup.cfg.persistent && StopsEarly(setup, m, op, w, a)
    ensures Later(m.state.time, a.machine.state.time)
  {
    LoadedState(setup, m, op, w);
    EarlyLater(setup, Loaded(setup, m, op, w).machine, op, w, a.machine);
  }

  /**
   * Only a response that accept commits to replaces the anchor or moves the last known good time back; no clock,
   * failure, restart or interruption can.
   */
  lemma StepLater(setup: Setup, m: Machine, step: Step, a: Answer)
    requires Inv(setup, m) && setup.cfg.persistent && Performs(setup)(m, step, a)
    ensures Later(AnchorAfter(setup.cfg, m, step.op, a, step.world.clock(Anchoring)), a.machine.state.time)
  {
    PerformsIs(setup, m, step, a);
    if a == Operate(setup, m, step.op, step.world) {
      OperateLater(setup, m, step.op, step.world);
    } else if StopsLate(setup, m, step.op, step.world, a) {
      StopsLateLater(setup, m, step.op, step.world, a);
    } else if StopsEarly(setup, m, step.op, step.world, a) {
      StopsEarlyLater(setup, m, step.op, step.world, a);
    }
  }

  /** StepLater at step k of a run. */
  lemma LaterAt(setup: Setup, m: Machine, steps: seq<Step>, answers: seq<Answer>, k: nat)
    requires Inv(setup, m) && setup.cfg.persistent && Run(setup, m, steps, answers) && k < |steps|
    ensures Later(AnchorAfter(setup.cfg, Before(m, answers, k), steps[k].op, answers[k],
                              steps[k].world.clock(Anchoring)), Before(m, answers, k + 1).state.time)
  {
    RunInv(setup, m, steps, answers, k);
    StepLater(setup, Before(m, answers, k), steps[k], answers[k]);
  }

  /** Between two operations of a run no response is adopted. */
  ghost predicate NoneAdopted(cfg: Config, m: Machine, steps: seq<Step>, answers: seq<Answer>, since: nat, until: nat)
    requires |answers| == |steps| && until <= |steps|
  {
    forall j | since <= j < until :: !Adopts(cfg, Before(m, answers, j), steps[j].op, answers[j])
  }

  lemma {:induction false} LaterUnadopted(setup: Setup, m: Machine, steps: seq<Step>, answers: seq<Answer>, since: nat,
                                          until: nat)
    requires Inv(setup, m) && setup.cfg.persistent && Run(setup, m, steps, answers) && since <= until <= |steps|
    requires NoneAdopted(setup.cfg, m, steps, answers, since, until)
    ensures Later(Before(m, answers, since).state.time, Before(m, answers, until).state.time)
    decreases until
  {
    if since != until {
      LaterUnadopted(setup, m, steps, answers, since, until - 1);
      LaterAt(setup, m, steps, answers, until - 1);
    }
  }

  /**
   * Over every run of a persistent session, whatever its clocks and boots: the anchor is that of the last response that
   * was accepted - its signed time, and the counter, boot and wall clock at which it was taken.
   */
  lemma AnchorInEveryRun(setup: Setup, saved: Option<Document>, first: World, steps: seq<Step>, answers: seq<Answer>,
                         k: nat, i: nat)
    requires Starts(setup, saved, first) && Run(setup, Start(setup, saved, first), steps, answers) && k < i <= |steps|
    requires setup.cfg.persistent && NoneAdopted(setup.cfg, Start(setup, saved, first), steps, answers, k + 1, i)
    requires Adopts(setup.cfg, Before(Start(setup, saved, first), answers, k), steps[k].op, answers[k])
    ensures var t, r := Before(Start(setup, saved, first), answers, i).state.time, steps[k].world.clock(Anchoring);
            && ServerTime(answers[k].heard.value) == Some(t.serverAnchor)
            && t.anchorMonotonic == r.monotonic && t.bootIdentifier == r.boot && t.wallAtAnchor == r.wall
            && !t.clockUntrusted && t.lastKnownGood >= t.serverAnchor
  {
    var m := Start(setup, saved, first);
    StartInv(setup, saved, first);
    LaterAt(setup, m, steps, answers, k);
    AdoptedTime(setup, m, steps, answers, k);
    LaterUnadopted(setup, m, steps, answers, k + 1, i);
  }

  /** What an operation has heard is signed, so it brings a time. */
  lemma AdoptedTime(setup: Setup, m: Machine, steps: seq<Step>, answers: seq<Answer>, k: nat)
    requires Run(setup, m, steps, answers) && k < |steps| && answers[k].heard.Some?
    ensures ServerTime(answers[k].heard.value).Some?
  {
    var n, step := Before(m, answers, k), steps[k];
    PerformsIs(setup, n, step, answers[k]);
    HeardIs(setup, Loaded(setup, n, step.op, step.world).machine, step.op, step.world);
  }

  /**
   * So offline time is the signed time of the last accepted response plus the whole seconds counted since it was taken,
   * as long as the boot lasts in which it was taken.
   */
  lemma SignedTimeInEveryRun(setup: Setup, saved: Option<Document>, first: World, steps: seq<Step>,
                             answers: seq<Answer>, k: nat, boot: string, marks: seq<int>, i: nat, r: Reading)
    requires Starts(setup, saved, first) && Run(setup, Start(setup, saved, first), steps, answers) && k < i <= |steps|
    requires setup.cfg.persistent && NoneAdopted(setup.cfg, Start(setup, saved, first), steps, answers, k + 1, i)
    requires Adopts(setup.cfg, Before(Start(setup, saved, first), answers, k), steps[k].op, answers[k])
    requires OneBootSince(steps, k, boot, marks) && r.boot == boot && marks[i] <= r.monotonic
    ensures var s := Before(Start(setup, saved, first), answers, i).state;
            var signed := ServerTime(answers[k].heard.value);
            var counted := (r.monotonic - steps[k].world.clock(Anchoring).monotonic) / 1000;
            signed.Some? && (signed.value > 0 ==>
              !Untrusted(setup.cfg, s.time, r) && EffectiveNow(s.time, r) == Min(signed.value + counted, MAX_TIME))
  {
    AnchorInEveryRun(setup, saved, first, steps, answers, k, i);
    OfflineTimeInEveryRun(setup, saved, first, steps, answers, k, boot, marks, i, r, r.wall);
  }

  /** Until a response is accepted there is no anchor. */
  lemma UnanchoredRun(setup: Setup, saved: Option<Document>, first: World, steps: seq<Step>, answers: seq<Answer>,
                      i: nat)
    requires Starts(setup, saved, first) && Run(setup, Start(setup, saved, first), steps, answers) && i <= |steps|
    requires setup.cfg.persistent && NoneAdopted(setup.cfg, Start(setup, saved, first), steps, answers, 0, i)
    ensures Before(Start(setup, saved, first), answers, i).state.time.serverAnchor == 0
  {
    StartInv(setup, saved, first);
    StartUnanchored(setup, saved, first);
    LaterUnadopted(setup, Start(setup, saved, first), steps, answers, 0, i);
  }

  lemma StartUnanchored(setup: Setup, saved: Option<Document>, first: World)
    requires Starts(setup, saved, first)
    ensures Start(setup, saved, first).state.time.serverAnchor == 0
  {
    NothingRestored(setup.cfg);
    if saved.Some? {
      OpenMigrates(setup, saved.value, first.clock(Loading));
    }
  }

  /** The last known good time is never behind the last signed time. */
  predicate NotBeforeAnchor(t: Checkpoint) {
    t.serverAnchor > 0 ==> t.lastKnownGood >= t.serverAnchor
  }

  lemma {:induction false} RunNotBeforeAnchor(setup: Setup, m: Machine, steps: seq<Step>, answers: seq<Answer>, i: nat)
    requires Inv(setup, m) && setup.cfg.persistent && Run(setup, m, steps, answers) && i <= |steps|
    requires NotBeforeAnchor(m.state.time)
    ensures NotBeforeAnchor(Before(m, answers, i).state.time)
  {
    if i > 0 {
      RunNotBeforeAnchor(setup, m, steps, answers, i - 1);
      LaterAt(setup, m, steps, answers, i - 1);
    }
  }

  /**
   * Over every run of a persistent session, whatever its clocks and boots: in the boot of the anchor a lease is usable
   * only while the counter has not fallen behind the anchor; in any other boot only by a wall clock that is not behind
   * the last signed time by more than 5 seconds and not past the expiry, and only if policy allows it.
   */
  lemma RebootInEveryRun(setup: Setup, saved: Option<Document>, first: World, steps: seq<Step>, answers: seq<Answer>,
                         i: nat, r: Reading)
    requires Starts(setup, saved, first) && Run(setup, Start(setup, saved, first), steps, answers) && i <= |steps|
    requires setup.cfg.persistent
    ensures var s := Before(Start(setup, saved, first), answers, i).state;
            s.time.serverAnchor > 0 && UsableLease(setup.cfg, s, r).Some? ==>
              if r.boot == s.time.bootIdentifier then r.monotonic >= s.time.anchorMonotonic
              else !setup.cfg.requireOnlineAfterReboot
                   && s.time.serverAnchor - 5 <= r.wall < s.epoch.lease.value.expiresAt
  {
    StartInv(setup, saved, first);
    StartUnanchored(setup, saved, first);
    RunNotBeforeAnchor(setup, Start(setup, saved, first), steps, answers, i);
    var s := Before(Start(setup, saved, first), answers, i).state;
    if s.time.serverAnchor > 0 && UsableLease(setup.cfg, s, r).Some? {
      if r.boot == s.time.bootIdentifier {
        CounterReset(setup.cfg, s, r);
      } else {
        AfterReboot(setup.cfg, s, r);
      }
    }
  }

  /**
   * In another boot a saved lease is usable only while the wall clock is not behind the checkpoint, and if policy
   * allows.
   */
  lemma AfterReboot(cfg: Config, s: State, r: Reading)
    requires cfg.persistent && s.time.bootIdentifier != r.boot && UsableLease(cfg, s, r).Some?
    ensures r.wall + 5 >= s.time.lastKnownGood && Max(s.time.lastKnownGood, r.wall) < s.epoch.lease.value.expiresAt
    ensures !(cfg.requireOnlineAfterReboot && s.time.serverAnchor > 0)
  {
  }

  /** Within one boot a lease is usable only while the counter has not fallen behind its anchor. */
  lemma CounterReset(cfg: Config, s: State, r: Reading)
    requires s.time.serverAnchor > 0 && s.time.bootIdentifier == r.boot
    ensures UsableLease(cfg, s, r).Some? ==> r.monotonic >= s.time.anchorMonotonic
  {
  }

  /**
   * A save at or past the expiry of a lease ends it for good: through any operations, interruptions, clock readings and
   * restarts, the lease is not usable again before another signed response is accepted.
   */
  lemma ExpiredStaysExpired(setup: Setup, m: Machine, saved: Reading, lease: Lease, steps: seq<Step>,
                            answers: seq<Answer>, i: nat, r: Reading)
    requires setup.cfg.persistent && Coherent(m.state.epoch) && Owned(setup.cfg, m.state) && Derived(setup.cfg, m.state)
    requires EffectiveNow(m.state.time, saved) >= lease.expiresAt
    requires Run(setup, Persist(setup, m, saved), steps, answers) && i <= |steps|
    requires NoneAdopted(setup.cfg, Persist(setup, m, saved), steps, answers, 0, i)
    ensures UsableLease(setup.cfg, Before(Persist(setup, m, saved), answers, i).state, r) != Some(lease)
  {
    PersistInv(setup, m, saved);
    PersistLater(setup, m, saved);
    LaterUnadopted(setup, Persist(setup, m, saved), steps, answers, 0, i);
  }
}
