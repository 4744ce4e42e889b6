/** What an accepted response makes of the lease, its flags and its marks, in terms of the response's own fields. */
module Verdicts {
  import opened Outcomes
  import opened Tokens
  import opened KeyChain
  import opened Exchange
  import opened Persistence
  import opened Session
  import opened Crashes
  import opened Safety
  import opened Epochs
  import opened Clocks
  import opened Documents

  // ---- what a response says ----

  /** The lease a response is about: the one it brings, or the one that is held. */
  function Concerned(e: Epoch, response: Response): Option<Lease> {
    if response.lease.Some? then response.lease else e.lease
  }

  /** The status revokes the device, the grant, the lease's generation or the key that signed it. */
  predicate Revokes(response: Response, lease: Option<Lease>) {
    && response.status.Some? && lease.Some?
    && (|| response.status.value.deviceRevoked || response.status.value.grant == GrantRevoked
        || response.status.value.minimumGeneration > lease.value.generation
        || lease.value.signingKeyId in response.status.value.revokedKids)
  }

  predicate Grants(response: Response, lease: Option<Lease>, grant: Grant) {
    response.status.Some? && lease.Some? && !Revokes(response, lease) && response.status.value.grant == grant
  }

  predicate Decides(response: Response, disposition: Disposition) {
    response.decision.Some? && response.decision.value.disposition == disposition
  }

  /** The response takes the lease back, by its status or by its decision. */
  predicate Withdraws(response: Response, lease: Option<Lease>) {
    || Revokes(response, lease) || Grants(response, lease, GrantEnded)
    || Decides(response, Revoked) || Decides(response, Ended)
  }

  /** It starts a new epoch. */
  predicate Begins(response: Response, authorizing: bool) {
    authorizing && response.lease.Some?
  }

  // ---- lease, status and decision, one after the other ----

  lemma LeaseStage(e: Epoch, response: Response, authorizing: bool)
    ensures var j, anew := WithLease(e, response, authorizing), Begins(response, authorizing);
            && j.lease == Concerned(e, response) && (j.revoked <==> e.revoked && !anew)
            && (j.ended <==> e.ended && !anew) && (j.ending <==> e.ending && !anew)
            && (j.serverExpired <==> e.serverExpired && response.lease.None?)
            && j.pendingEnd == (if anew then None else e.pendingEnd)
            && j.leaseCompact == if response.lease.Some? then Some(response.lease.value.compact) else e.leaseCompact
  {
  }

  lemma StatusStage(e: Epoch, response: Response)
    ensures var j, revoked, ended := WithStatus(e, response), Revokes(response, e.lease),
                                     Grants(response, e.lease, GrantEnded);
            && j.lease == (if revoked || ended then None else e.lease)
            && j.leaseCompact == (if revoked || ended then None else e.leaseCompact)
            && (j.revoked <==> revoked || (!ended && e.revoked)) && (j.ended <==> ended || (!revoked && e.ended))
            && (j.ending <==> e.ending && !revoked && !ended)
            && (j.serverExpired <==> e.serverExpired || Grants(response, e.lease, GrantReclaimPending))
            && j.pendingEnd == if revoked || ended then None else e.pendingEnd
  {
  }

  lemma DecisionStage(e: Epoch, response: Response)
    ensures var j, revoked, ended := WithDecision(e, response), Decides(response, Revoked), Decides(response, Ended);
            && j.lease == (if revoked || ended then None else e.lease)
            && j.leaseCompact == (if revoked || ended then None else e.leaseCompact)
            && (j.revoked <==> revoked || (!ended && e.revoked)) && (j.ended <==> ended || (!revoked && e.ended))
            && (j.ending <==> e.ending && !revoked && !ended)
            && (j.serverExpired <==> e.serverExpired || Decides(response, Expired))
            && j.pendingEnd == if revoked || ended then None else e.pendingEnd
  {
  }

  /**
   * The lease is gone exactly when it is taken back; the decision has the last word on whether it was revoked or ended,
   * then the status, then a new epoch; and it counts as expired exactly when the decision or the status says so, or it
   * did before and is not replaced.
   */
  lemma JudgedMeans(e: Epoch, response: Response, authorizing: bool)
    ensures var j, lease := Judged(e, response, authorizing), Concerned(e, response);
            var anew := Begins(response, authorizing);
            && j.lease == (if Withdraws(response, lease) then None else lease)
            && (j.revoked <==>
                || Decides(response, Revoked)
                || (!Decides(response, Ended)
                    && (Revokes(response, lease) || (!Grants(response, lease, GrantEnded) && e.revoked && !anew))))
            && (j.ended <==>
                || Decides(response, Ended)
                || (!Decides(response, Revoked)
                    && (Grants(response, lease, GrantEnded) || (!Revokes(response, lease) && e.ended && !anew))))
            && (j.serverExpired <==>
                || Decides(response, Expired) || Grants(response, lease, GrantReclaimPending)
                || (e.serverExpired && response.lease.None?))
            && j.pendingEnd == (if Withdraws(response, lease) || anew then None else e.pendingEnd)
            && (j.ending <==> e.ending && !Withdraws(response, lease) && !anew)
            && j.leaseCompact == if Withdraws(response, lease) then None
                                 else if response.lease.Some? then Some(response.lease.value.compact)
                                 else e.leaseCompact
  {
    LeaseStage(e, response, authorizing);
    var leased := WithLease(e, response, authorizing);
    StatusStage(leased, response);
    DecisionStage(WithStatus(leased, response), response);
  }

  lemma LeaseMarks(e: Epoch, response: Response, authorizing: bool)
    ensures var j, anew := WithLease(e, response, authorizing), Begins(response, authorizing);
            && j.status == (if anew then None else e.status)
            && j.statusCompact == (if anew then None else e.statusCompact) && j.statusSequence == e.statusSequence
            && j.minimumGeneration == (if anew then 0 else e.minimumGeneration)
            && j.authorizationId == (if anew then response.lease.value.authorizationId else e.authorizationId)
            && j.highestGeneration == (if response.lease.None? then e.highestGeneration
                                       else if anew then response.lease.value.generation
                                       else if response.lease.value.generation > e.highestGeneration
                                       then response.lease.value.generation else e.highestGeneration)
  {
  }

  lemma StatusMarks(e: Epoch, response: Response)
    ensures var j := WithStatus(e, response);
            && j.authorizationId == e.authorizationId && j.highestGeneration == e.highestGeneration
            && (response.status.Some? ==>
                  && j.status == response.status && j.statusCompact == Some(response.status.value.compact)
                  && j.statusSequence == response.status.value.sequence
                  && j.minimumGeneration == response.status.value.minimumGeneration)
            && (response.status.None? ==> j == e)
  {
  }

  lemma DecisionMarks(e: Epoch, response: Response)
    ensures var j := WithDecision(e, response);
            && j.authorizationId == e.authorizationId && j.highestGeneration == e.highestGeneration
            && j.status == e.status && j.statusCompact == e.statusCompact && j.statusSequence == e.statusSequence
            && j.minimumGeneration == e.minimumGeneration
  {
  }

  /**
   * The marks after a response: those of its status; a new epoch has its own identifier and generation; otherwise the
   * highest generation so far.
   */
  lemma JudgedMarksMean(e: Epoch, response: Response, authorizing: bool)
    ensures var j, anew := Judged(e, response, authorizing), Begins(response, authorizing);
            && (response.status.Some? ==>
                  && j.status == response.status && j.statusCompact == Some(response.status.value.compact)
                  && j.statusSequence == response.status.value.sequence
                  && j.minimumGeneration == response.status.value.minimumGeneration)
            && (response.status.None? ==>
                  && j.status == (if anew then None else e.status) && j.statusSequence == e.statusSequence
                  && j.statusCompact == (if anew then None else e.statusCompact)
                  && j.minimumGeneration == (if anew then 0 else e.minimumGeneration))
            && j.authorizationId == (if anew then response.lease.value.authorizationId else e.authorizationId)
            && j.highestGeneration == (if response.lease.None? then e.highestGeneration
                                       else if anew then response.lease.value.generation
                                       else if response.lease.value.generation > e.highestGeneration
                                       then response.lease.value.generation else e.highestGeneration)
  {
    LeaseMarks(e, response, authorizing);
    var leased := WithLease(e, response, authorizing);
    StatusMarks(leased, response);
    DecisionMarks(WithStatus(leased, response), response);
  }

  // ---- accept ----

  /** The checkpoint after a response: its signed time, the status's before the decision's before the lease's. */
  lemma AnchoredMeans(t: Checkpoint, response: Response, r: Reading)
    ensures var c := Anchored(t, response, r);
            if Signed(response) then
              && c.lastKnownGood == c.serverAnchor && c.anchorMonotonic == r.monotonic && c.wallAtAnchor == r.wall
              && c.bootIdentifier == r.boot && !c.clockUntrusted
              && (response.status.Some? ==> c.serverAnchor == response.status.value.issuedAt)
              && (response.status.None? && response.decision.Some? ==>
                    c.serverAnchor == response.decision.value.issuedAt)
              && (response.status.None? && response.decision.None? ==>
                    c.serverAnchor == response.lease.value.issuedAt)
            else c == t
  {
  }

  /** The response is behind what the session knows. */
  predicate Behind(s: State, response: Response, authorizing: bool) {
    || response.keysetSequence < s.keysetSequence
    || (response.status.Some? && response.status.value.sequence < s.epoch.statusSequence)
    || (!authorizing && response.lease.Some? && response.lease.value.generation < s.epoch.highestGeneration)
  }

  /** The whole chain, with the response's links, leads from the pinned roots to the response's sequence. */
  ghost predicate Continues(cfg: Config, s: State, response: Response, ring: Ring) {
    Leads(cfg, s.keyTransitions + response.keyTransitions, Chain(0, cfg.pinned),
          Chain(response.keysetSequence, ring))
  }

  /** The session with the response: its chain, its marks, its verdict and its time, and no retries. */
  function Informed(m: Machine, response: Response, authorizing: bool, ring: Ring, r: Reading): Machine {
    var s := m.state;
    Machine(s.(keyTransitions := s.keyTransitions + response.keyTransitions, keysetSequence := response.keysetSequence,
               retryFailures := 0, nextRetry := 0, epoch := Judged(s.epoch, response, authorizing),
               time := Anchored(s.time, response, r)), ring, m.store, m.written)
  }

  /**
   * A response behind the session is refused; a stale generation reloads; any other response is taken exactly when the
   * chain continues, and then everything is saved at once, with the retries forgotten.
   */
  lemma AcceptMeans(setup: Setup, m: Machine, response: Response, authorizing: bool, clock: Clock)
    ensures var o, s, cfg := Accept(setup, m, response, authorizing, clock), m.state, setup.cfg;
            if Behind(s, response, authorizing) then o == Outcome(m, Some(InvalidState))
            else if response.decision.Some? && response.decision.value.responseCode == "STALE_GENERATION"
                then o == Reload(setup, m, clock(Anchoring))
            else
              && (o.failure.None? <==> exists ring :: Continues(cfg, s, response, ring))
              && (forall ring | Continues(cfg, s, response, ring) ::
                    SavedAs(setup, Informed(m, response, authorizing, ring, clock(Anchoring)), clock(SavingAccepted),
                          o.machine))
              && (o.failure.Some? ==> o.failure == Some(InvalidState) && o.machine == m.(ring := o.machine.ring))
  {
    var s, o := m.state, Accept(setup, m, response, authorizing, clock);
    if !Behind(s, response, authorizing) && !Stale(response) {
      var restored := Restore(setup.cfg, s.keyTransitions + response.keyTransitions, response.keysetSequence);
      RestoreMeans(setup.cfg, s.keyTransitions + response.keyTransitions, response.keysetSequence);
      assert forall ring :: Continues(setup.cfg, s, response, ring) <==> restored == Ok(ring);
      if restored.Ok? {
        AcceptTakes(setup, m, response, authorizing, clock, restored.value);
      }
    }
  }

  lemma AcceptTakes(setup: Setup, m: Machine, response: Response, authorizing: bool, clock: Clock, ring: Ring)
    requires !Behind(m.state, response, authorizing) && !Stale(response)
    requires Restore(setup.cfg, m.state.keyTransitions + response.keyTransitions, response.keysetSequence) == Ok(ring)
    ensures var o := Accept(setup, m, response, authorizing, clock);
            o.failure.None? && SavedAs(setup, Informed(m, response, authorizing, ring, clock(Anchoring)),
                                     clock(SavingAccepted), o.machine)
  {
    PersistMeans(setup, Informed(m, response, authorizing, ring, clock(Anchoring)), clock(SavingAccepted),
                 Accept(setup, m, response, authorizing, clock).machine);
  }

  // ---- over an operation, and over a run ----

  /** What an accepted response makes of the lease and of what is known of its grant. */
  predicate Follows(e: Epoch, f: Epoch, response: Response, authorizing: bool) {
    SameLease(Judged(e, response, authorizing), f)
  }

  /** Saving a pending end request first makes no difference to the verdict. */
  lemma PendingIndifferent(e: Epoch, f: Epoch, response: Response, authorizing: bool)
    requires SameLease(e, f)
    ensures SameLease(Judged(e, response, authorizing), Judged(f, response, authorizing))
  {
    JudgedMeans(e, response, authorizing);
    JudgedMeans(f, response, authorizing);
  }

  /** accept follows the response it commits to, and leaves the lease alone otherwise. */
  lemma AcceptFollows(setup: Setup, m: Machine, response: Response, authorizing: bool, clock: Clock)
    requires Inv(setup, m)
    ensures var f := Accept(setup, m, response, authorizing, clock).machine.state.epoch;
            if Commits(setup.cfg, m.state, response, authorizing) then f == Judged(m.state.epoch, response, authorizing)
            else f == m.state.epoch
  {
    if !MovedBack(m.state, response, authorizing) && Stale(response) {
      ReloadKeepsState(setup, m, clock(Anchoring));
    }
  }

  /** What accept gets follows the response, if it commits to it, from the state the operation started with. */
  lemma TakenFollows(setup: Setup, m: Machine, op: Operation, w: World)
    requires Inv(setup, m) && (setup.cfg.persistent ==> Synchronized(setup.cfg, m)) && Taken(setup, m, op, w).Some?
    ensures var e, f := m.state.epoch, Taken(setup, m, op, w).value.machine.state.epoch;
            var response := Answered(setup, m, op, w).value.1;
            if Signed(response) && Commits(setup.cfg, m.state, response, Authorizes(op))
            then Follows(e, f, response, Authorizes(op)) else SameLease(e, f)
  {
    SendingInv(setup, m, op, w);
    var n := Sending(setup, m, op, w).value.0;
    var (received, response) := Answered(setup, m, op, w).value;
    EarlyEpoch(setup, m, op, w, n);
    SendingCommits(setup, m, op, w, response);
    assert Inv(setup, received);
    AcceptFollows(setup, received, response, Authorizes(op), w.clock);
    PendingIndifferent(m.state.epoch, n.state.epoch, response, Authorizes(op));
  }

  /** After accept the lease is only given up, by an acknowledged end. */
  lemma AfterFollows(setup: Setup, m: Machine, op: Operation, w: World)
    requires Taken(setup, m, op, w).Some? && Inv(setup, Taken(setup, m, op, w).value.machine)
    ensures var f := Perform(setup, m, op, w).machine.state.epoch;
            f == Taken(setup, m, op, w).value.machine.state.epoch || f.lease.None?
  {
    var o, response := Taken(setup, m, op, w).value, Answered(setup, m, op, w).value.1;
    var posted := Postings(setup.cfg, Sending(setup, m, op, w).value.1, w);
    if op.End? {
      if o.failure.Some? {
        CaughtInv(setup, o.machine, o.failure.value, true, w, posted, Heard(response));
      }
    } else {
      PerformTaken(setup, m, op, w);
      if o.failure.Some? {
        CaughtInv(setup, o.machine, o.failure.value, false, w, posted, Heard(response));
      } else {
        ConcludeInv(setup, o.machine, response, Authorizes(op), Forgets(op), w);
      }
    }
  }

  /** From m the answer gives the lease up, or does what the response it heard and adopted says, or leaves it alone. */
  predicate Moves(cfg: Config, m: Machine, op: Operation, a: Answer) {
    var e, f := m.state.epoch, a.machine.state.epoch;
    || f.lease.None?
    || (if Adopts(cfg, m, op, a) then Follows(e, f, a.heard.value, Authorizes(op)) else SameLease(e, f))
  }

  lemma PerformMoves(setup: Setup, m: Machine, op: Operation, w: World)
    requires Inv(setup, m) && (setup.cfg.persistent ==> Synchronized(setup.cfg, m))
    ensures Moves(setup.cfg, m, op, Perform(setup, m, op, w))
  {
    HeardIs(setup, m, op, w);
    if Taken(setup, m, op, w).Some? {
      TakenInv(setup, m, op, w);
      TakenFollows(setup, m, op, w);
      AfterFollows(setup, m, op, w);
    } else if op.End? {
      EndLockedUnheard(setup, m, op.reason, w);
    } else {
      PerformEpoch(setup, m, op, w);
    }
  }

  lemma LateMoves(setup: Setup, m: Machine, op: Operation, w: World, c: Machine)
    requires Inv(setup, m) && (setup.cfg.persistent ==> Synchronized(setup.cfg, m)) && Late(setup, m, op, w, c)
    ensures Moves(setup.cfg, m, op, Perform(setup, m, op, w).(machine := c))
  {
    HeardIs(setup, m, op, w);
    LateInv(setup, m, op, w, c);
    TakenFollows(setup, m, op, w);
  }

  lemma OperateMoves(setup: Setup, m: Machine, op: Operation, w: World)
    requires Inv(setup, m)
    ensures Moves(setup.cfg, m, op, Operate(setup, m, op, w))
  {
    LoadedEpoch(setup, m, op, w);
    var o := Loaded(setup, m, op, w);
    if o.failure.None? && !op.Restart? {
      ReloadKeepsState(setup, m, w.clock(Loading));
      PerformMoves(setup, o.machine, op, w);
    }
  }

  lemma InterruptedMoves(setup: Setup, m: Machine, op: Operation, w: World, a: Answer)
    requires Inv(setup, m) && setup.cfg.persistent && Interrupted(setup, m, op, w, a)
    ensures Moves(setup.cfg, m, op, a)
  {
    if StopsEarly(setup, m, op, w, a) {
      EarlyMoves(setup, m, op, w, a);
    } else if StopsLate(setup, m, op, w, a) {
      LoadedState(setup, m, op, w);
      LoadedLog(setup, m, op, w);
      LateMoves(setup, Loaded(setup, m, op, w).machine, op, w, a.machine);
    }
  }

  lemma EarlyMoves(setup: Setup, m: Machine, op: Operation, w: World, a: Answer)
    requires Inv(setup, m) && setup.cfg.persistent && StopsEarly(setup, m, op, w, a)
    ensures a.heard.None? && SameLease(m.state.epoch, a.machine.state.epoch)
  {
    LoadedState(setup, m, op, w);
    EarlyEpoch(setup, Loaded(setup, m, op, w).machine, op, w, a.machine);
  }

  /** So every step of a run does one of the three, whether it is interrupted or not. */
  lemma StepMoves(setup: Setup, m: Machine, step: Step, a: Answer)
    requires Inv(setup, m) && Performs(setup)(m, step, a)
    ensures Moves(setup.cfg, m, step.op, a)
  {
    PerformsIs(setup, m, step, a);
    if a == Operate(setup, m, step.op, step.world) {
      OperateMoves(setup, m, step.op, step.world);
    } else {
      InterruptedMoves(setup, m, step.op, step.world, a);
    }
  }

  /** No lease, or one the server has called expired. */
  predicate Withheld(e: Epoch) {
    e.lease.None? || e.serverExpired
  }

  /** The server has reclaimed the grant, and the session has accepted that. */
  predicate Reclaims(cfg: Config, m: Machine, op: Operation, a: Answer) {
    Adopts(cfg, m, op, a) && a.heard.value.status.Some? && a.heard.value.status.value.grant == GrantReclaimPending
  }

  /** The session has accepted a lease. */
  predicate AdoptsLease(cfg: Config, m: Machine, op: Operation, a: Answer) {
    Adopts(cfg, m, op, a) && a.heard.value.lease.Some?
  }

  lemma ReclaimedIsWithheld(e: Epoch, response: Response, authorizing: bool)
    requires response.status.Some? && response.status.value.grant == GrantReclaimPending
    ensures Withheld(Judged(e, response, authorizing))
  {
    JudgedMeans(e, response, authorizing);
  }

  /** A reclaimed grant withholds the lease, and what is withheld stays so until a lease is accepted. */
  lemma WithheldStep(setup: Setup, m: Machine, steps: seq<Step>, answers: seq<Answer>, k: nat)
    requires Inv(setup, m) && Run(setup, m, steps, answers) && k < |steps|
    requires var n := Before(m, answers, k);
             || Reclaims(setup.cfg, n, steps[k].op, answers[k])
             || (Withheld(n.state.epoch) && !AdoptsLease(setup.cfg, n, steps[k].op, answers[k]))
    ensures Withheld(Before(m, answers, k + 1).state.epoch)
  {
    var n, op, a := Before(m, answers, k), steps[k].op, answers[k];
    RunInv(setup, m, steps, answers, k);
    StepMoves(setup, n, steps[k], a);
    if Reclaims(setup.cfg, n, op, a) {
      ReclaimedIsWithheld(n.state.epoch, a.heard.value, Authorizes(op));
    } else if Adopts(setup.cfg, n, op, a) {
      JudgedMeans(n.state.epoch, a.heard.value, Authorizes(op));
    }
  }

  /**
   * Over every run, whatever is answered, lost or interrupted: after an accepted status that reclaims the grant no
   * lease is usable at any reading of the clock, until another lease is accepted.
   */
  lemma ReclaimedRun(setup: Setup, m: Machine, steps: seq<Step>, answers: seq<Answer>, j: nat, i: nat)
    requires Inv(setup, m) && Run(setup, m, steps, answers) && j < i <= |steps|
    requires Reclaims(setup.cfg, Before(m, answers, j), steps[j].op, answers[j])
    requires forall k | j < k < i :: !AdoptsLease(setup.cfg, Before(m, answers, k), steps[k].op, answers[k])
    ensures forall r :: UsableLease(setup.cfg, Before(m, answers, i).state, r) == None
  {
    var p := (k: nat) => k <= |answers| && (k > j ==> Withheld(Before(m, answers, k).state.epoch));
    forall k: nat | k < i && p(k)
      ensures p(k + 1)
    {
      if k >= j {
        WithheldStep(setup, m, steps, answers, k);
      }
    }
    UpTo(p, i);
  }
}