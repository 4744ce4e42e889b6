/** How a session ends: the saved end request, the answers that clear it, and what is said to the caller. */
module Endings {
  import opened Outcomes
  import opened Tokens
  import opened KeyChain
  import opened Exchange
  import opened Persistence
  import opened Session
  import opened Crashes
  import opened Safety
  import opened Epochs
  import opened Documents
  import opened Verdicts
  import opened Requests

  // ---- the request ----

  function EndContent(m: Machine, reason: string): Content
    requires m.state.epoch.lease.Some?
  {
    Saying(m, "end", Ask(reason, None, 1 <= |reason| <= 128), None, Some(m.state.epoch.lease.value.compact))
  }

  /** The reason has 1 to 128 characters, and the rest of the request is within its limits too. */
  predicate Endable(m: Machine, reason: string)
    requires m.state.epoch.lease.Some?
  {
    1 <= |reason| <= 128 && Sendable(Ask(reason, None, true), EndContent(m, reason))
  }

  /** From n, b is the machine that sends the end request q: q is pending there, and saved. */
  ghost predicate Begun(setup: Setup, n: Machine, reason: string, w: World, b: Machine, q: PreparedRequest) {
    && b.state.epoch.pendingEnd == Some(q)
    && (if n.state.epoch.pendingEnd.Some? then b == n
        else
          && n.state.epoch.lease.Some? && Carries(setup, q, EndContent(n, reason), w.jti)
          && SavedAs(setup, n.(state := n.state.(epoch := n.state.epoch.(pendingEnd := Some(q), ending := true))),
                     w.clock(SavingFirst), b))
  }

  /** A lease gets an end request, which is saved before it is sent; one that is pending already is left as it is. */
  lemma PendingMeans(setup: Setup, m: Machine, reason: string, w: World)
    requires m.state.epoch.pendingEnd.Some? || m.state.epoch.lease.Some?
    ensures var b := WithPendingEnd(setup, m, reason, w);
            if m.state.epoch.pendingEnd.Some? || Endable(m, reason)
            then b.failure.None? && exists q :: Begun(setup, m, reason, w, b.machine, q)
            else b == Outcome(m, Some(Configuration))
  {
    if m.state.epoch.pendingEnd.Some? {
      assert Begun(setup, m, reason, w, m, m.state.epoch.pendingEnd.value);
    } else {
      var r := Prepare(setup, "end", EndAsk(reason), None, Some(m.state.epoch.lease.value.compact), m.state, m.ring,
                       w.jti);
      var q := if r.Ok? then r.value else PreparedRequest("", "", "", "", "", None, None, 0, 0);
      PrepareMeans(setup, m, "end", EndAsk(reason), None, Some(m.state.epoch.lease.value.compact), w.jti, q);
      if r.Ok? {
        var b := WithPendingEnd(setup, m, reason, w).machine;
        PersistMeans(setup, m.(state := m.state.(epoch := m.state.epoch.(pendingEnd := Some(q), ending := true))),
                     w.clock(SavingFirst), b);
        assert Begun(setup, m, reason, w, b, q);
      }
    }
  }

  // ---- the answer ----

  /** The server says that the lease has ended. */
  predicate SaysEnded(response: Response) {
    && response.decision.Some?
    && (response.decision.value.responseCode == "LEASE_ENDED" || response.decision.value.disposition == Ended)
  }

  /** It takes the lease back as revoked: the decision has the last word. */
  predicate SaysRevoked(response: Response, lease: Option<Lease>) {
    Decides(response, Revoked) || (Revokes(response, lease) && !Decides(response, Ended))
  }

  predicate SaysStale(response: Response) {
    response.decision.Some? && response.decision.value.responseCode == "STALE_GENERATION"
  }

  /** The epoch in which the end request is pending. */
  predicate IsPending(e: Epoch, f: Epoch) {
    f.pendingEnd.Some? && f == e.(pendingEnd := f.pendingEnd, ending := true)
  }

  /** What is done once accept has returned: an acknowledged end is saved, everything else stays as accept left it. */
  lemma FinishOutcome(setup: Setup, o: Outcome, response: Response, w: World, posted: seq<PreparedRequest>)
    requires o.failure != Some(Transport)
    ensures var a, g := Finish(setup, o, response, w, posted), o.machine.state.epoch;
            var f := a.machine.state.epoch;
            if o.failure.Some? then a.machine == o.machine && a.result == Err(o.failure.value)
            else if g.revoked
                then a.machine == o.machine && (!g.ending ==> a.result == Ok(Snapshot(Inactive, None)))
            else if SaysEnded(response) then
              && a.result == Ok(Snapshot(IsEnded, None))
              && f == g.(ended := true, ending := false, lease := None, leaseCompact := None, pendingEnd := None)
              && SavedAs(setup, o.machine.(state := o.machine.state.(epoch := f)), w.clock(SavingLast), a.machine)
            else a.machine == o.machine && a.result == Err(InvalidState)
  {
    var f := Finish(setup, o, response, w, posted).machine.state.epoch;
    PersistMeans(setup, o.machine.(state := o.machine.state.(epoch := f)), w.clock(SavingLast),
                 Finish(setup, o, response, w, posted).machine);
  }

  /** What accept and the rest of the end make of the verified answer. */
  lemma FinishMeans(setup: Setup, m: Machine, response: Response, w: World, posted: seq<PreparedRequest>)
    requires Inv(setup, m) && m.state.epoch.ending
    ensures var a, o := Finish(setup, Accept(setup, m, response, false, w.clock), response, w, posted),
                        Accept(setup, m, response, false, w.clock);
            var e, f, lease := m.state.epoch, a.machine.state.epoch, Concerned(m.state.epoch, response);
            var revoked := !SaysStale(response) && SaysRevoked(response, lease);
            && (f.pendingEnd.None? <==>
                o.failure.None? && (SaysEnded(response) || (!SaysStale(response) && Withdraws(response, lease))))
            && (f.pendingEnd.Some? ==> f.pendingEnd == e.pendingEnd && f.ending)
            && (f.lease == if f.pendingEnd.None? then None
                           else if o.failure.Some? || SaysStale(response) then e.lease else lease)
            && (o.failure.None? ==>
                  if revoked then a.result == Ok(Snapshot(Inactive, None)) && f.revoked && !f.ended
                  else if SaysEnded(response) then a.result == Ok(Snapshot(IsEnded, None)) && f.ended && !f.revoked
                  else a.result == Err(InvalidState))
            && (o.failure.Some? ==> a.result == Err(o.failure.value) && f == e)
  {
    var o := Accept(setup, m, response, false, w.clock);
    AcceptFollows(setup, m, response, false, w.clock);
    AcceptNeverTransport(setup, m, response, false, w.clock);
    JudgedMeans(m.state.epoch, response, false);
    AcceptMeans(setup, m, response, false, w.clock);
    FinishOutcome(setup, o, response, w, posted);
  }

  /** The errors of accept are never those of the network. */
  lemma AcceptNeverTransport(setup: Setup, m: Machine, response: Response, authorizing: bool, clock: Clock)
    ensures Accept(setup, m, response, authorizing, clock).failure != Some(Transport)
  {
    AcceptMeans(setup, m, response, authorizing, clock);
    if setup.cfg.persistent && m.store.Some? {
      OpenNeverTransport(setup, m.store.value, m.state.thumbprint, m.state.keyReference, clock(Anchoring));
      ReloadMeans(setup, m, clock(Anchoring));
    }
  }

  lemma OpenNeverTransport(setup: Setup, d: Document, thumbprint: string, keyReference: string, r: Reading)
    ensures Open(setup, d, thumbprint, keyReference, r) != Err(Transport)
  {
    RefusalMeans(setup, d, thumbprint, keyReference, r);
    var parsed := Authentic(setup, d, thumbprint, keyReference, r);
    if parsed.Ok? {
      TokensNeverTransport(setup.cfg, parsed.value);
    }
  }

  lemma TokensNeverTransport(cfg: Config, s: State)
    ensures VerifyRuntime(cfg, s) != Err(Transport)
  {
    var restored := Restore(cfg, s.keyTransitions, s.keysetSequence);
    if restored.Ok? {
      if s.epoch.leaseCompact.Some? {
        LeaseMeans(cfg, s.epoch.leaseCompact.value, None, None, restored.value);
      }
      if s.epoch.statusCompact.Some? {
        var lease := Optionally(s.epoch.leaseCompact, text => VerifyLease(cfg, text, None, None, restored.value));
        if lease.Ok? {
          StatusMeans(cfg, s.epoch.statusCompact.value, None, lease.value, restored.value);
        }
      }
    }
  }

  // ---- the operation ----

  /** Without a lease or a pending request there is nothing to end; otherwise it is sent, unless it cannot be made. */
  lemma EndSends(setup: Setup, m: Machine, reason: string, w: World, n: Machine)
    requires Ready(setup, m, End(reason), w, n)
    ensures var a, s := Operate(setup, m, End(reason), w), n.state;
            if s.epoch.ended || (s.epoch.lease.None? && s.epoch.pendingEnd.None?)
            then Locally(n, a, Ok(SnapshotOf(setup.cfg, s, false, w.clock(Answering))))
            else if s.epoch.pendingEnd.None? && !Endable(n, reason) then Locally(n, a, Err(Configuration))
            else
              && Sending(setup, n, End(reason), w).Some?
              && var (b, q) := Sending(setup, n, End(reason), w).value;
                 Begun(setup, n, reason, w, b, q) && Again(setup, w, a.posted, q)
  {
    var e := n.state.epoch;
    if !(e.ended || (e.lease.None? && e.pendingEnd.None?)) {
      PendingMeans(setup, n, reason, w);
      PostedIs(setup, n, End(reason), w);
      AttemptsMean(setup.cfg, w.network);
    }
  }

  /** The machine that receives the answer to the end request. */
  lemma ReceivesEnd(setup: Setup, m: Machine, reason: string, w: World)
    requires Inv(setup, m) && (setup.cfg.persistent ==> Synchronized(setup.cfg, m))
    requires Sending(setup, m, End(reason), w).Some?
    ensures var (b, q) := Sending(setup, m, End(reason), w).value;
            && Inv(setup, b) && b.state.epoch.ending && b.state.epoch.pendingEnd == Some(q)
            && SameLease(m.state.epoch, b.state.epoch) && (m.state.epoch.pendingEnd.Some? ==> b == m)
            && Perform(setup, m, End(reason), w) == SendEnd(setup, b, q, w)
  {
    SendingInv(setup, m, End(reason), w);
    EarlyEpoch(setup, m, End(reason), w, Sending(setup, m, End(reason), w).value.0);
  }

  /**
   * The verified answer to an end request clears it exactly when the answer is accepted and says that the lease has
   * ended, or takes the lease back. The caller is told that the session has ended only when the answer says so and does
   * not revoke the lease. An accepted answer that does neither is an error, and everything stays as it was.
   */
  lemma EndAnswered(setup: Setup, m: Machine, reason: string, w: World, response: Response)
    requires Inv(setup, m) && (setup.cfg.persistent ==> Synchronized(setup.cfg, m))
    requires var op := End(reason);
             && Taken(setup, m, op, w).Some? && response == Answered(setup, m, op, w).value.1
    ensures var op := End(reason);
            var a, q := Perform(setup, m, op, w), Sending(setup, m, op, w).value.1;
            var e, f, lease := m.state.epoch, a.machine.state.epoch, Concerned(m.state.epoch, response);
            var accepted := Taken(setup, m, op, w).value.failure.None?;
            var revoked := !SaysStale(response) && SaysRevoked(response, lease);
            && (f.pendingEnd.None? <==>
                accepted && (SaysEnded(response) || (!SaysStale(response) && Withdraws(response, lease))))
            && (f.pendingEnd.Some? ==> f.pendingEnd == Some(q) && f.ending)
            && (f.lease == if f.pendingEnd.None? then None
                           else if !accepted || SaysStale(response) then e.lease else lease)
            && (a.result == Ok(Snapshot(IsEnded, None)) <==> accepted && SaysEnded(response) && !revoked)
            && (a.result == Ok(Snapshot(Inactive, None)) <==> accepted && revoked)
            && (accepted && !revoked && !SaysEnded(response) ==> a.result == Err(InvalidState))
            && (a.result.Ok? ==> f.ended == !revoked && f.revoked == revoked)
            && a.heard == Heard(response) && response.httpStatus != 429 && response.httpStatus < 500
  {
    var op := End(reason);
    ReceivesEnd(setup, m, reason, w);
    HeardIs(setup, m, op, w);
    var (b, q) := Sending(setup, m, op, w).value;
    var received := Answered(setup, m, op, w).value.0;
    assert Inv(setup, received);
    FinishMeans(setup, received, response, w, Postings(setup.cfg, q, w));
  }

  /** Without an answer that counts, the request stays pending; only an answer that cannot be verified is an error. */
  lemma EndUnanswered(setup: Setup, m: Machine, reason: string, w: World)
    requires Inv(setup, m) && (setup.cfg.persistent ==> Synchronized(setup.cfg, m))
    requires Sending(setup, m, End(reason), w).Some? && Taken(setup, m, End(reason), w).None?
    ensures var a, (b, q) := Perform(setup, m, End(reason), w), Sending(setup, m, End(reason), w).value;
            var processed := Process(setup.cfg, b.ring, Final(setup.cfg, w.network), q);
            && a.heard.None? && a.machine.state.epoch == b.state.epoch
            && (processed.Ok? ==> var status := processed.value.response.httpStatus; status == 429 || status >= 500)
            && (if processed.Err? && processed.failure != Transport
                then a.machine == b && a.result == Err(processed.failure)
                else
                  && a.result == Ok(Snapshot(IsEnding, None))
                  && a.machine == if processed.Err? then ScheduleRetry(setup, b, None, w.jitter, w.clock)
                                  else ScheduleRetry(setup, b.(ring := processed.value.ring),
                                                     processed.value.response.retryAfter, w.jitter, w.clock))
  {
    ReceivesEnd(setup, m, reason, w);
    var (b, q) := Sending(setup, m, End(reason), w).value;
    ScheduleRetryInv(setup, b, None, w.jitter, w.clock);
    match Process(setup.cfg, b.ring, Final(setup.cfg, w.network), q)
    case Err(f) =>
    case Ok(p) =>
      assert Inv(setup, b.(ring := p.ring));
      ScheduleRetryInv(setup, b.(ring := p.ring), p.response.retryAfter, w.jitter, w.clock);
  }

  // ---- over a run ----

  /** The answer heard ends the grant, takes the lease back or starts a new epoch. */
  predicate Clears(m: Machine, op: Operation, a: Answer) {
    && a.heard.Some?
    && (|| (op.End? && SaysEnded(a.heard.value)) || Withdraws(a.heard.value, Concerned(m.state.epoch, a.heard.value))
        || Begins(a.heard.value, Authorizes(op)))
  }

  lemma PerformRetains(setup: Setup, m: Machine, op: Operation, w: World)
    requires Inv(setup, m) && (setup.cfg.persistent ==> Synchronized(setup.cfg, m)) && m.state.epoch.pendingEnd.Some?
    requires !Clears(m, op, Perform(setup, m, op, w))
    ensures Perform(setup, m, op, w).machine.state.epoch.pendingEnd == m.state.epoch.pendingEnd
  {
    if op.End? {
      EndRetains(setup, m, op.reason, w);
    } else {
      PerformEpoch(setup, m, op, w);
      var a := Perform(setup, m, op, w);
      if a.heard.Some? {
        JudgedMeans(m.state.epoch, a.heard.value, Authorizes(op));
      }
    }
  }

  lemma EndRetains(setup: Setup, m: Machine, reason: string, w: World)
    requires Inv(setup, m) && (setup.cfg.persistent ==> Synchronized(setup.cfg, m)) && m.state.epoch.pendingEnd.Some?
    requires !Clears(m, End(reason), Perform(setup, m, End(reason), w))
    ensures Perform(setup, m, End(reason), w).machine.state.epoch.pendingEnd == m.state.epoch.pendingEnd
  {
    if Sending(setup, m, End(reason), w).Some? {
      ReceivesEnd(setup, m, reason, w);
      if Taken(setup, m, End(reason), w).Some? {
        EndAnswered(setup, m, reason, w, Answered(setup, m, End(reason), w).value.1);
      } else {
        EndUnanswered(setup, m, reason, w);
      }
    }
  }

  lemma LateRetains(setup: Setup, m: Machine, op: Operation, w: World, c: Machine)
    requires Inv(setup, m) && (setup.cfg.persistent ==> Synchronized(setup.cfg, m)) && m.state.epoch.pendingEnd.Some?
    requires Late(setup, m, op, w, c) && !Clears(m, op, Perform(setup, m, op, w))
    ensures c.state.epoch.pendingEnd == m.state.epoch.pendingEnd
  {
    LateInv(setup, m, op, w, c);
    HeardIs(setup, m, op, w);
    TakenEpoch(setup, m, op, w);
    EarlyEpoch(setup, m, op, w, Sending(setup, m, op, w).value.0);
    SendingInv(setup, m, op, w);
    JudgedMeans(m.state.epoch, Answered(setup, m, op, w).value.1, Authorizes(op));
  }

  lemma OperateRetains(setup: Setup, m: Machine, op: Operation, w: World)
    requires Inv(setup, m) && setup.cfg.persistent && m.state.epoch.pendingEnd.Some?
    requires !Clears(m, op, Operate(setup, m, op, w))
    ensures Operate(setup, m, op, w).machine.state.epoch.pendingEnd == m.state.epoch.pendingEnd
  {
    LoadedEpoch(setup, m, op, w);
    if !op.Restart? && Loaded(setup, m, op, w).failure.None? {
      LoadedState(setup, m, op, w);
      LoadedLog(setup, m, op, w);
      PerformRetains(setup, Loaded(setup, m, op, w).machine, op, w);
    }
  }

  lemma InterruptedRetains(setup: Setup, m: Machine, op: Operation, w: World, a: Answer)
    requires Inv(setup, m) && setup.cfg.persistent && m.state.epoch.pendingEnd.Some?
    requires Interrupted(setup, m, op, w, a) && !Clears(m, op, a)
    ensures a.machine.state.epoch.pendingEnd == m.state.epoch.pendingEnd
  {
    if StopsEarly(setup, m, op, w, a) {
      LoadedState(setup, m, op, w);
      EarlyEpoch(setup, Loaded(setup, m, op, w).machine, op, w, a.machine);
    } else if StopsLate(setup, m, op, w, a) {
      LoadedState(setup, m, op, w);
      LoadedLog(setup, m, op, w);
      LateRetains(setup, Loaded(setup, m, op, w).machine, op, w, a.machine);
    }
  }

  lemma StepRetains(setup: Setup, m: Machine, steps: seq<Step>, answers: seq<Answer>, k: nat)
    requires Inv(setup, m) && setup.cfg.persistent && Run(setup, m, steps, answers) && k < |steps|
    requires Before(m, answers, k).state.epoch.pendingEnd.Some?
    requires !Clears(Before(m, answers, k), steps[k].op, answers[k])
    ensures Before(m, answers, k + 1).state.epoch.pendingEnd == Before(m, answers, k).state.epoch.pendingEnd
  {
    var n, step := Before(m, answers, k), steps[k];
    RunInv(setup, m, steps, answers, k);
    PerformsIs(setup, n, step, answers[k]);
    if answers[k] == Operate(setup, n, step.op, step.world) {
      OperateRetains(setup, n, step.op, step.world);
    } else {
      InterruptedRetains(setup, n, step.op, step.world, answers[k]);
    }
  }

  /**
   * Over every run of a persistent session, interrupted or not: a pending end request stays pending, field for field,
   * until an answer that is heard ends the grant, takes the lease back or starts a new epoch.
   */
  lemma {:induction false} EndRequestRetained(setup: Setup, m: Machine, steps: seq<Step>, answers: seq<Answer>, i: nat)
    requires Inv(setup, m) && setup.cfg.persistent && Run(setup, m, steps, answers) && i <= |steps|
    requires m.state.epoch.pendingEnd.Some?
    requires forall k | 0 <= k < i :: !Clears(Before(m, answers, k), steps[k].op, answers[k])
    ensures Before(m, answers, i).state.epoch.pendingEnd == m.state.epoch.pendingEnd
  {
    if i > 0 {
      EndRequestRetained(setup, m, steps, answers, i - 1);
      StepRetains(setup, m, steps, answers, i - 1);
    }
  }
}
