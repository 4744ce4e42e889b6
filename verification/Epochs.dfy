/** How a lease, a terminal state and a pending end request change over the operations of a run. */
module Epochs {
  import opened Outcomes
  import opened Tokens
  import opened Exchange
  import opened Persistence
  import opened Session
  import opened Crashes
  import opened Safety

  /** accept commits to the response's verdict, or does not change the epoch at all. */
  lemma AcceptEpoch(setup: Setup, m: Machine, response: Response, authorizing: bool, clock: Clock)
    requires Inv(setup, m)
    ensures var o := Accept(setup, m, response, authorizing, clock);
            || o.machine.state.epoch == m.state.epoch
            || (o.failure.None? && !Stale(response)
                && o.machine.state.epoch == Judged(m.state.epoch, response, authorizing))
    ensures ServerTime(response).None?
            ==> Accept(setup, m, response, authorizing, clock).machine.state.epoch == m.state.epoch
  {
    if !MovedBack(m.state, response, authorizing) && Stale(response) {
      ReloadKeepsState(setup, m, clock(Anchoring));
    }
  }

  /** The response an operation heard was accepted: the operation did not fail, and the server did not call it stale. */
  predicate Accepted(a: Answer) {
    a.heard.Some? && a.result.Ok? && !Stale(a.heard.value)
  }

  /** An executed request changes the epoch only by the verdict of the response it accepted. */
  lemma ExecuteEpoch(setup: Setup, m: Machine, prepared: Result<PreparedRequest>, authorizing: bool,
                     forgetMissingKey: bool, w: World)
    requires Inv(setup, m) && (setup.cfg.persistent ==> Synchronized(setup.cfg, m))
    requires authorizing || m.state.epoch.lease.Some?
    ensures var a := Execute(setup, m, prepared, authorizing, forgetMissingKey, w);
            a.machine.state.epoch == m.state.epoch
            || (Accepted(a) && a.machine.state.epoch == Judged(m.state.epoch, a.heard.value, authorizing))
  {
    if prepared.Ok? {
      var raw, posted := Final(setup.cfg, w.network), Postings(setup.cfg, prepared.value, w);
      match Process(setup.cfg, m.ring, raw, prepared.value)
      case Err(f) => CaughtInv(setup, m, f, false, w, posted, None);
      case Ok(p) =>
        var received := m.(ring := p.ring);
        AcceptInv(setup, m, received, p.response, prepared.value, raw, authorizing, w.clock);
        FinishExecuteEpoch(setup, received, p.response, authorizing, forgetMissingKey, w, posted);
    }
  }

  lemma FinishExecuteEpoch(setup: Setup, m: Machine, response: Response, authorizing: bool, forgetMissingKey: bool,
                           w: World, posted: seq<PreparedRequest>)
    requires Inv(setup, m) && Inv(setup, Accept(setup, m, response, authorizing, w.clock).machine)
    ensures var a := FinishExecute(setup, m, response, authorizing, forgetMissingKey, w, posted);
            a.machine.state.epoch == m.state.epoch
            || (Accepted(a) && a.machine.state.epoch == Judged(m.state.epoch, a.heard.value, authorizing))
  {
    var accepted := if Signed(response) then Accept(setup, m, response, authorizing, w.clock) else Outcome(m, None);
    AcceptEpoch(setup, m, response, authorizing, w.clock);
    if accepted.failure.Some? {
      CaughtInv(setup, accepted.machine, accepted.failure.value, false, w, posted, Heard(response));
    } else {
      ConcludeInv(setup, accepted.machine, response, authorizing, forgetMissingKey, w);
    }
  }

  /** The operations that only execute a request. */
  lemma PerformEpoch(setup: Setup, m: Machine, op: Operation, w: World)
    requires Inv(setup, m) && (setup.cfg.persistent ==> Synchronized(setup.cfg, m)) && !op.End?
    ensures var a := Perform(setup, m, op, w);
            a.machine.state.epoch == m.state.epoch
            || (Accepted(a) && (Authorizes(op) || m.state.epoch.lease.Some?)
                && a.machine.state.epoch == Judged(m.state.epoch, a.heard.value, Authorizes(op)))
  {
    if Sender(setup, m, op, w).Some? {
      SenderInv(setup, m, op, w);
      var n := Sender(setup, m, op, w).value;
      ExecuteEpoch(setup, n, RequestOf(setup, n, op, w.jti), Authorizes(op), Forgets(op), w);
    }
  }

  /** Getting the state back before an operation does not change its epoch, except that a memory session forgets it. */
  lemma LoadedEpoch(setup: Setup, m: Machine, op: Operation, w: World)
    requires Inv(setup, m)
    ensures var o := Loaded(setup, m, op, w);
            && Inv(setup, o.machine)
            && (o.failure.None? && setup.cfg.persistent ==> Synchronized(setup.cfg, o.machine))
            && (o.machine.state.epoch == m.state.epoch
                || (op.Restart? && !setup.cfg.persistent
                    && o.machine.state.epoch == NewState(setup.cfg, w.clock(Deciding)).epoch))
  {
    LoadedInv(setup, m, op, w);
    if op.Restart? {
      RestartedInv(setup, m, w);
    } else {
      ReloadKeepsState(setup, m, w.clock(Loading));
    }
  }

  // ---- interrupted operations ----

  /** The machine a request is sent from differs in its epoch only by the pending end request. */
  lemma EarlyEpoch(setup: Setup, m: Machine, op: Operation, w: World, c: Machine)
    requires Early(setup, m, op, w, c)
    ensures var pending := c.state.epoch.pendingEnd;
            c.state.epoch == m.state.epoch
            || (op.End? && m.state.epoch.pendingEnd.None? && pending.Some?
                && c.state.epoch == m.state.epoch.(pendingEnd := pending, ending := true))
  {
  }

  /** What accept makes of the epoch. */
  lemma TakenEpoch(setup: Setup, m: Machine, op: Operation, w: World)
    requires Inv(setup, m) && (setup.cfg.persistent ==> Synchronized(setup.cfg, m)) && Taken(setup, m, op, w).Some?
    ensures var n, o := Sending(setup, m, op, w).value.0, Taken(setup, m, op, w).value;
            var response := Answered(setup, m, op, w).value.1;
            || o.machine.state.epoch == n.state.epoch
            || (o.failure.None? && !Stale(response)
                && o.machine.state.epoch == Judged(n.state.epoch, response, Authorizes(op)))
  {
    SendingInv(setup, m, op, w);
    var (received, response) := Answered(setup, m, op, w).value;
    assert Inv(setup, received);
    AcceptEpoch(setup, received, response, Authorizes(op), w.clock);
  }

  /** A response that accept commits to is one the operation heard and did not fail on. */
  lemma TakenHeard(setup: Setup, m: Machine, op: Operation, w: World)
    requires !op.End? && Taken(setup, m, op, w).Some?
    ensures var a := Perform(setup, m, op, w);
            && a.heard == Some(Answered(setup, m, op, w).value.1)
            && (Taken(setup, m, op, w).value.failure.None? ==> a.result.Ok?)
  {
    PerformTaken(setup, m, op, w);
  }

  /** LeaseOnlyFromAuthorize for an operation that is interrupted. */
  lemma InterruptedLease(setup: Setup, m: Machine, op: Operation, w: World, a: Answer)
    requires Inv(setup, m) && setup.cfg.persistent && m.state.epoch.lease.None? && Interrupted(setup, m, op, w, a)
    ensures a.machine.state.epoch.lease.Some? ==> Grants(op, a)
  {
    if a.machine.state.epoch.lease.Some? {
      LoadedState(setup, m, op, w);
      var loaded := Loaded(setup, m, op, w).machine;
      if Early(setup, loaded, op, w, a.machine) {
        EarlyEpoch(setup, loaded, op, w, a.machine);
      } else {
        LateLease(setup, loaded, op, w, a.machine);
      }
    }
  }

  lemma LateLease(setup: Setup, m: Machine, op: Operation, w: World, c: Machine)
    requires Inv(setup, m) && (setup.cfg.persistent ==> Synchronized(setup.cfg, m)) && m.state.epoch.lease.None?
    requires Late(setup, m, op, w, c) && c.state.epoch.lease.Some?
    ensures Grants(op, Perform(setup, m, op, w))
  {
    LateInv(setup, m, op, w, c);
    SendingInv(setup, m, op, w);
    TakenEpoch(setup, m, op, w);
    TakenHeard(setup, m, op, w);
    JudgedTokens(Sending(setup, m, op, w).value.0.state.epoch, Answered(setup, m, op, w).value.1, Authorizes(op));
  }

  // ---- terminal states ----

  /**
   * Without a lease, only an accepted response to an authorize request brings one, and it is the one in the response.
   */
  lemma LeaseOnlyFromAuthorize(setup: Setup, m: Machine, op: Operation, w: World)
    requires Inv(setup, m) && m.state.epoch.lease.None?
    ensures var a := Operate(setup, m, op, w);
            a.machine.state.epoch.lease.Some? ==>
              Authorizes(op) && Accepted(a) && a.heard.value.lease == a.machine.state.epoch.lease
  {
    LoadedEpoch(setup, m, op, w);
    var o := Loaded(setup, m, op, w);
    if o.failure.None? && !op.End? {
      PerformEpoch(setup, o.machine, op, w);
      var a := Perform(setup, o.machine, op, w);
      if a.heard.Some? {
        JudgedTokens(o.machine.state.epoch, a.heard.value, Authorizes(op));
      }
    }
  }

  /** An authorize request was answered with a lease, and the answer was accepted. */
  predicate Grants(op: Operation, a: Answer) {
    Authorizes(op) && Accepted(a) && a.heard.value.lease.Some?
  }

  /** One step of a run without a lease. */
  lemma TerminalStep(setup: Setup, m: Machine, steps: seq<Step>, answers: seq<Answer>, k: nat)
    requires Inv(setup, m) && Run(setup, m, steps, answers) && k < |steps|
    requires Before(m, answers, k).state.epoch.lease.None? && !Grants(steps[k].op, answers[k])
    ensures Before(m, answers, k + 1).state.epoch.lease.None?
  {
    RunInv(setup, m, steps, answers, k);
    var n, step := Before(m, answers, k), steps[k];
    PerformsIs(setup, n, step, answers[k]);
    if answers[k] == Operate(setup, n, step.op, step.world) {
      LeaseOnlyFromAuthorize(setup, n, step.op, step.world);
    } else {
      InterruptedLease(setup, n, step.op, step.world, answers[k]);
    }
  }

  /**
   * Over a whole run: from a terminal state no lease is usable before an accepted authorize response brings a new one.
   */
  lemma TerminalRun(setup: Setup, m: Machine, steps: seq<Step>, answers: seq<Answer>, i: nat)
    requires Inv(setup, m) && (m.state.epoch.ended || m.state.epoch.revoked || m.state.epoch.lease.None?)
    requires Run(setup, m, steps, answers) && i <= |steps|
    requires forall k | 0 <= k < i :: !Grants(steps[k].op, answers[k])
    ensures var n := Before(m, answers, i);
            n.state.epoch.lease.None? && forall r :: UsableLease(setup.cfg, n.state, r) == None
  {
    var p := (k: nat) => k <= |answers| && Before(m, answers, k).state.epoch.lease.None?;
    forall k: nat | k < i && p(k)
      ensures p(k + 1)
    {
      TerminalStep(setup, m, steps, answers, k);
    }
    UpTo(p, i);
  }

  // ---- the pending end request ----

  /** What an end operation sends, and what it leaves pending. */
  lemma EndLockedPending(setup: Setup, m: Machine, reason: string, w: World)
    requires Inv(setup, m) && (setup.cfg.persistent ==> Synchronized(setup.cfg, m))
    ensures var a := EndLocked(setup, m, reason, w);
            var b := WithPendingEnd(setup, m, reason, w).machine;
            && (a.posted != [] ==> b.state.epoch.pendingEnd.Some?)
            && (forall q | q in a.posted :: Some(q) == b.state.epoch.pendingEnd)
            && (a.machine.state.epoch.pendingEnd.Some? ==>
                  && a.machine.state.epoch.pendingEnd == b.state.epoch.pendingEnd
                  && (a.posted != [] || a.machine.state.epoch == m.state.epoch))
            && (m.state.epoch.pendingEnd.Some? ==> b.state.epoch.pendingEnd == m.state.epoch.pendingEnd)
  {
    if !(m.state.epoch.ended || (m.state.epoch.lease.None? && m.state.epoch.pendingEnd.None?)) {
      var begun := WithPendingEnd(setup, m, reason, w);
      WithPendingEndInv(setup, m, reason, w);
      if begun.failure.None? {
        var b, request := begun.machine, begun.machine.state.epoch.pendingEnd.value;
        var posted := Postings(setup.cfg, request, w);
        match Process(setup.cfg, b.ring, Final(setup.cfg, w.network), request)
        case Err(f) => CaughtInv(setup, b, f, true, w, posted, None);
        case Ok(p) => FinishEndPending(setup, b, b.(ring := p.ring), p.response, request, w, posted);
      }
    }
  }

  /** The answer to an end request can only clear it. */
  lemma FinishEndPending(setup: Setup, m: Machine, after: Machine, response: Response, request: PreparedRequest,
                         w: World, posted: seq<PreparedRequest>)
    requires Inv(setup, m) && AfterProcess(setup.cfg, m, after, response, request, Final(setup.cfg, w.network))
    requires (setup.cfg.persistent ==> Synchronized(setup.cfg, m)) && m.state.epoch.lease.Some?
    ensures var a := FinishEnd(setup, after, response, w, posted);
            a.posted == posted
            && (a.machine.state.epoch.pendingEnd.Some? ==> a.machine.state.epoch.pendingEnd == m.state.epoch.pendingEnd)
  {
    assert Inv(setup, after);
    ScheduleRetryInv(setup, after, response.retryAfter, w.jitter, w.clock);
    AcceptInv(setup, m, after, response, request, Final(setup.cfg, w.network), false, w.clock);
    AcceptEpoch(setup, after, response, false, w.clock);
    JudgedTokens(after.state.epoch, response, false);
    FinishPending(setup, Accept(setup, after, response, false, w.clock), response, w, posted);
  }

  lemma FinishPending(setup: Setup, accepted: Outcome, response: Response, w: World, posted: seq<PreparedRequest>)
    requires Inv(setup, accepted.machine)
    ensures var a := Finish(setup, accepted, response, w, posted);
            && a.posted == posted
            && (a.machine.state.epoch.pendingEnd.Some? ==>
                  a.machine.state.epoch.pendingEnd == accepted.machine.state.epoch.pendingEnd)
  {
    if accepted.failure.Some? {
      CaughtInv(setup, accepted.machine, accepted.failure.value, true, w, posted, Heard(response));
    }
  }

  /** The end requests among what an operation posted. */
  function EndRequests(a: Answer): set<PreparedRequest> {
    set q | q in a.posted && q.endpoint == "end"
  }

  /** Every other operation sends no end request, and keeps or clears the pending one. */
  lemma PerformPending(setup: Setup, m: Machine, op: Operation, w: World)
    requires Inv(setup, m) && (setup.cfg.persistent ==> Synchronized(setup.cfg, m)) && !op.End?
    ensures var a := Perform(setup, m, op, w);
            EndRequests(a) == {} && (a.machine.state.epoch.pendingEnd.Some?
                                     ==> a.machine.state.epoch.pendingEnd == m.state.epoch.pendingEnd)
  {
    PerformEpoch(setup, m, op, w);
    PostedIs(setup, m, op, w);
    var a := Perform(setup, m, op, w);
    if a.heard.Some? {
      JudgedTokens(m.state.epoch, a.heard.value, Authorizes(op));
    }
  }

  /** A pending end request is sent as it is, and stays until it is cleared. */
  lemma PerformKept(setup: Setup, m: Machine, op: Operation, w: World)
    requires Inv(setup, m) && (setup.cfg.persistent ==> Synchronized(setup.cfg, m)) && m.state.epoch.pendingEnd.Some?
    ensures var a := Perform(setup, m, op, w);
            && (forall q | q in EndRequests(a) :: Some(q) == m.state.epoch.pendingEnd)
            && (a.machine.state.epoch.pendingEnd.Some? ==> a.machine.state.epoch.pendingEnd == m.state.epoch.pendingEnd)
  {
    if op.End? {
      EndLockedPending(setup, m, op.reason, w);
    } else {
      PerformPending(setup, m, op, w);
    }
  }

  lemma EndRequestKept(setup: Setup, m: Machine, op: Operation, w: World)
    requires Inv(setup, m) && m.state.epoch.pendingEnd.Some?
    ensures var a := Operate(setup, m, op, w);
            && (forall q | q in EndRequests(a) :: Some(q) == m.state.epoch.pendingEnd)
            && (a.machine.state.epoch.pendingEnd.Some? ==> a.machine.state.epoch.pendingEnd == m.state.epoch.pendingEnd)
  {
    LoadedEpoch(setup, m, op, w);
    var o := Loaded(setup, m, op, w);
    if o.failure.None? {
      if op.Restart? {
        PerformPending(setup, o.machine, op, w);
      } else {
        PerformKept(setup, o.machine, op, w);
      }
    }
  }

  /** The operation that creates a pending end request is an end operation, and has already sent it. */
  lemma PerformCreated(setup: Setup, m: Machine, op: Operation, w: World)
    requires Inv(setup, m) && (setup.cfg.persistent ==> Synchronized(setup.cfg, m)) && m.state.epoch.pendingEnd.None?
    ensures var a := Perform(setup, m, op, w);
            a.machine.state.epoch.pendingEnd.Some? ==>
              op.End? && a.posted != [] && forall q | q in a.posted :: Some(q) == a.machine.state.epoch.pendingEnd
  {
    if op.End? {
      EndLockedPending(setup, m, op.reason, w);
    } else {
      PerformPending(setup, m, op, w);
    }
  }

  lemma EndRequestCreated(setup: Setup, m: Machine, op: Operation, w: World)
    requires Inv(setup, m) && m.state.epoch.pendingEnd.None?
    ensures var a := Operate(setup, m, op, w);
            a.machine.state.epoch.pendingEnd.Some? ==>
              op.End? && a.posted != [] && forall q | q in a.posted :: Some(q) == a.machine.state.epoch.pendingEnd
  {
    LoadedEpoch(setup, m, op, w);
    var o := Loaded(setup, m, op, w);
    if o.failure.None? {
      PerformCreated(setup, o.machine, op, w);
    }
  }

  /** EndRequestKept for an operation that is interrupted. */
  lemma InterruptedKept(setup: Setup, m: Machine, op: Operation, w: World, a: Answer)
    requires Inv(setup, m) && setup.cfg.persistent && m.state.epoch.pendingEnd.Some?
    requires Interrupted(setup, m, op, w, a)
    ensures forall q | q in EndRequests(a) :: Some(q) == m.state.epoch.pendingEnd
    ensures a.machine.state.epoch.pendingEnd.Some? ==> a.machine.state.epoch.pendingEnd == m.state.epoch.pendingEnd
  {
    EndRequestKept(setup, m, op, w);
    if a.machine != m {
      LoadedState(setup, m, op, w);
      var loaded := Loaded(setup, m, op, w).machine;
      if Early(setup, loaded, op, w, a.machine) {
        EarlyEpoch(setup, loaded, op, w, a.machine);
      } else {
        LatePending(setup, loaded, op, w, a.machine);
      }
    }
  }

  lemma LatePending(setup: Setup, m: Machine, op: Operation, w: World, c: Machine)
    requires Inv(setup, m) && (setup.cfg.persistent ==> Synchronized(setup.cfg, m)) && m.state.epoch.pendingEnd.Some?
    requires Late(setup, m, op, w, c)
    ensures c.state.epoch.pendingEnd.Some? ==> c.state.epoch.pendingEnd == m.state.epoch.pendingEnd
  {
    LateInv(setup, m, op, w, c);
    SendingInv(setup, m, op, w);
    TakenEpoch(setup, m, op, w);
    var n := Sending(setup, m, op, w).value.0;
    EarlyEpoch(setup, m, op, w, n);
    JudgedTokens(n.state.epoch, Answered(setup, m, op, w).value.1, Authorizes(op));
  }

  /** One step of a run with a pending end request. */
  lemma EndRequestStep(setup: Setup, m: Machine, steps: seq<Step>, answers: seq<Answer>, k: nat)
    requires Inv(setup, m) && Run(setup, m, steps, answers) && k < |steps|
    requires Before(m, answers, k).state.epoch.pendingEnd.Some?
    ensures var pending := Before(m, answers, k).state.epoch.pendingEnd;
            var next := Before(m, answers, k + 1).state.epoch.pendingEnd;
            (forall q | q in EndRequests(answers[k]) :: Some(q) == pending) && (next.Some? ==> next == pending)
  {
    RunInv(setup, m, steps, answers, k);
    var n, step := Before(m, answers, k), steps[k];
    PerformsIs(setup, n, step, answers[k]);
    EndRequestKept(setup, n, step.op, step.world);
    if answers[k] != Operate(setup, n, step.op, step.world) {
      InterruptedKept(setup, n, step.op, step.world, answers[k]);
    }
  }

  /** Over a whole run: until it is cleared, every end request sent is the pending one, field for field. */
  lemma EndRequestRun(setup: Setup, m: Machine, steps: seq<Step>, answers: seq<Answer>, i: nat)
    requires Inv(setup, m) && Run(setup, m, steps, answers) && i < |steps|
    requires forall k | 0 <= k <= i :: Before(m, answers, k).state.epoch.pendingEnd.Some?
    ensures Before(m, answers, i).state.epoch.pendingEnd == m.state.epoch.pendingEnd
    ensures forall q | q in EndRequests(answers[i]) :: Some(q) == m.state.epoch.pendingEnd
  {
    var p := (k: nat) => k <= |answers| && Before(m, answers, k).state.epoch.pendingEnd == m.state.epoch.pendingEnd;
    forall k: nat | k < i && p(k)
      ensures p(k + 1)
    {
      EndRequestStep(setup, m, steps, answers, k);
      assert Before(m, answers, k + 1).state.epoch.pendingEnd.Some?;
    }
    UpTo(p, i);
    EndRequestStep(setup, m, steps, answers, i);
  }

  // ---- unsigned answers ----

  /** The lease and what has become of its grant. */
  predicate SameLease(e: Epoch, f: Epoch) {
    e.lease == f.lease && e.ended == f.ended && e.revoked == f.revoked && e.serverExpired == f.serverExpired
  }

  lemma EndLockedUnheard(setup: Setup, m: Machine, reason: string, w: World)
    requires Inv(setup, m) && (setup.cfg.persistent ==> Synchronized(setup.cfg, m))
    ensures var a := EndLocked(setup, m, reason, w);
            a.heard.None? ==> SameLease(a.machine.state.epoch, m.state.epoch)
  {
    if !(m.state.epoch.ended || (m.state.epoch.lease.None? && m.state.epoch.pendingEnd.None?)) {
      var begun := WithPendingEnd(setup, m, reason, w);
      WithPendingEndInv(setup, m, reason, w);
      assert SameLease(begun.machine.state.epoch, m.state.epoch);
      if begun.failure.None? {
        SendEndUnheard(setup, begun.machine, begun.machine.state.epoch.pendingEnd.value, w);
      }
    }
  }

  lemma SendEndUnheard(setup: Setup, m: Machine, request: PreparedRequest, w: World)
    requires Inv(setup, m)
    ensures var a := SendEnd(setup, m, request, w);
            && (a.heard.None? ==> a.machine.state.epoch == m.state.epoch)
            && forall q | q in a.posted :: q == request
  {
    var posted := Postings(setup.cfg, request, w);
    match Process(setup.cfg, m.ring, Final(setup.cfg, w.network), request)
    case Err(f) => CaughtInv(setup, m, f, true, w, posted, None);
    case Ok(p) =>
      assert Inv(setup, m.(ring := p.ring));
      FinishEndUnheard(setup, m.(ring := p.ring), p.response, w, posted);
  }

  lemma FinishEndUnheard(setup: Setup, m: Machine, response: Response, w: World, posted: seq<PreparedRequest>)
    requires Inv(setup, m)
    ensures var a := FinishEnd(setup, m, response, w, posted);
            a.heard.None? ==> a.machine.state.epoch == m.state.epoch
  {
    ScheduleRetryInv(setup, m, response.retryAfter, w.jitter, w.clock);
    AcceptEpoch(setup, m, response, false, w.clock);
  }

  /**
   * Nothing is sent that is not saved: an end request without a signed answer is pending when the operation is over,
   * or the process stops, so that it can be sent again.
   */
  lemma UnansweredStaysPending(setup: Setup, m: Machine, op: Operation, w: World, a: Answer)
    requires Inv(setup, m) && Performs(setup)(m, Step(op, w), a) && a.heard.None?
    ensures forall q | q in EndRequests(a) :: Some(q) == a.machine.state.epoch.pendingEnd
  {
    PerformsIs(setup, m, Step(op, w), a);
    if a == Operate(setup, m, op, w) {
      OperateUnanswered(setup, m, op, w);
    } else {
      InterruptedUnanswered(setup, m, op, w, a);
    }
  }

  lemma OperateUnanswered(setup: Setup, m: Machine, op: Operation, w: World)
    requires Inv(setup, m)
    ensures var a := Operate(setup, m, op, w);
            a.heard.None? ==> forall q | q in EndRequests(a) :: Some(q) == a.machine.state.epoch.pendingEnd
  {
    LoadedEpoch(setup, m, op, w);
    var o := Loaded(setup, m, op, w);
    if o.failure.None? {
      if op.End? {
        SentFromBegun(setup, o.machine, op.reason, w);
      } else {
        PerformPending(setup, o.machine, op, w);
      }
    }
  }

  lemma InterruptedUnanswered(setup: Setup, m: Machine, op: Operation, w: World, a: Answer)
    requires Inv(setup, m) && setup.cfg.persistent && Interrupted(setup, m, op, w, a) && a.heard.None?
    ensures forall q | q in EndRequests(a) :: Some(q) == a.machine.state.epoch.pendingEnd
  {
    if EndRequests(a) != {} {
      LoadedState(setup, m, op, w);
      var loaded := Loaded(setup, m, op, w).machine;
      if op.End? {
        SentFromBegun(setup, loaded, op.reason, w);
        LateHeard(setup, loaded, op, w, a.machine);
      } else {
        PerformPending(setup, loaded, op, w);
      }
    }
  }

  lemma UnsignedTaken(setup: Setup, m: Machine, op: Operation, w: World)
    requires Inv(setup, m) && (setup.cfg.persistent ==> Synchronized(setup.cfg, m)) && Taken(setup, m, op, w).Some?
    requires !Signed(Answered(setup, m, op, w).value.1)
    ensures Taken(setup, m, op, w).value.machine.state.epoch == Sending(setup, m, op, w).value.0.state.epoch
  {
    SendingInv(setup, m, op, w);
    var (received, response) := Answered(setup, m, op, w).value;
    assert Inv(setup, received);
    AcceptEpoch(setup, received, response, Authorizes(op), w.clock);
  }

  /** After accept the response counts as heard, or it was not signed and changed nothing. */
  lemma LateHeard(setup: Setup, m: Machine, op: Operation, w: World, c: Machine)
    requires Inv(setup, m) && (setup.cfg.persistent ==> Synchronized(setup.cfg, m)) && op.End?
    ensures Late(setup, m, op, w, c) && Perform(setup, m, op, w).heard.None? ==>
              c.state.epoch == WithPendingEnd(setup, m, op.reason, w).machine.state.epoch
  {
    if Late(setup, m, op, w, c) {
      LateInv(setup, m, op, w, c);
      PerformEnded(setup, m, op, w);
      var response := Answered(setup, m, op, w).value.1;
      if !Signed(response) {
        UnsignedTaken(setup, m, op, w);
      }
    }
  }

  lemma SentFromBegun(setup: Setup, m: Machine, reason: string, w: World)
    requires Inv(setup, m) && (setup.cfg.persistent ==> Synchronized(setup.cfg, m))
    ensures var a, b := EndLocked(setup, m, reason, w), WithPendingEnd(setup, m, reason, w).machine;
            && (forall q | q in a.posted :: Some(q) == b.state.epoch.pendingEnd)
            && (a.heard.None? && a.posted != [] ==> a.machine.state.epoch == b.state.epoch)
  {
    if !(m.state.epoch.ended || (m.state.epoch.lease.None? && m.state.epoch.pendingEnd.None?)) {
      var begun := WithPendingEnd(setup, m, reason, w);
      WithPendingEndInv(setup, m, reason, w);
      if begun.failure.None? {
        SendEndUnheard(setup, begun.machine, begun.machine.state.epoch.pendingEnd.value, w);
      }
    }
  }

  /** Network failures, throttling and unsigned answers change neither the lease nor what is known of its grant. */
  lemma OnlySignedAnswersCount(setup: Setup, m: Machine, op: Operation, w: World)
    requires Inv(setup, m) && setup.cfg.persistent
    ensures var a := Operate(setup, m, op, w); a.heard.None? ==> SameLease(a.machine.state.epoch, m.state.epoch)
  {
    LoadedEpoch(setup, m, op, w);
    var o := Loaded(setup, m, op, w);
    if o.failure.None? {
      if op.End? {
        EndLockedUnheard(setup, o.machine, op.reason, w);
      } else {
        PerformEpoch(setup, o.machine, op, w);
      }
    }
  }

  // ---- snapshots ----

  /** A lease in a snapshot is the usable lease of the state at one of the operation's readings. */
  ghost predicate Backed(setup: Setup, a: Answer, w: World) {
    a.result.Ok? && a.result.value.lease.Some? ==>
      exists moment :: a.result.value.lease == UsableLease(setup.cfg, a.machine.state, w.clock(moment))
  }

  /** A snapshot shows exactly the usable lease, and says so in its standing. */
  lemma SnapshotIsUsable(cfg: Config, s: State, online: bool, r: Reading)
    ensures var snapshot := SnapshotOf(cfg, s, online, r);
            && snapshot.lease == UsableLease(cfg, s, r)
            && (snapshot.lease.Some? <==> snapshot.standing in {RenewalDue, AuthorizedOnline, AuthorizedOffline})
            && (snapshot.lease.Some? ==> (snapshot.standing == RenewalDue
                                          <==> EffectiveNow(s.time, r) >= snapshot.lease.value.renewAfter))
  {
  }

  lemma ConcludeBacked(setup: Setup, m: Machine, response: Response, authorizing: bool, forgetMissingKey: bool,
                       w: World)
    ensures var (after, snapshot) := Conclude(setup, m, response, authorizing, forgetMissingKey, w);
            snapshot.lease.Some? ==> snapshot.lease == UsableLease(setup.cfg, after.state, w.clock(Answering))
  {
    var kept := Keeping(setup, m, response, forgetMissingKey, w);
    SnapshotIsUsable(setup.cfg, kept.state, true, w.clock(Answering));
    SnapshotIsUsable(setup.cfg, kept.state, false, w.clock(Answering));
  }

  lemma ExecuteBacked(setup: Setup, m: Machine, prepared: Result<PreparedRequest>, authorizing: bool,
                      forgetMissingKey: bool, w: World)
    ensures Backed(setup, Execute(setup, m, prepared, authorizing, forgetMissingKey, w), w)
  {
    if prepared.Ok? {
      match Process(setup.cfg, m.ring, Final(setup.cfg, w.network), prepared.value)
      case Err(f) =>
      case Ok(p) =>
        var received := m.(ring := p.ring);
        var accepted := if Signed(p.response) then Accept(setup, received, p.response, authorizing, w.clock)
            else Outcome(received, None);
        if accepted.failure.None? {
          ConcludeBacked(setup, accepted.machine, p.response, authorizing, forgetMissingKey, w);
        }
    }
  }

  lemma PerformBacked(setup: Setup, m: Machine, op: Operation, w: World)
    ensures op.End? || Backed(setup, Perform(setup, m, op, w), w)
  {
    if !op.End? {
      var sender := Sender(setup, m, op, w);
      if sender.Some? {
        ExecuteBacked(setup, sender.value, RequestOf(setup, sender.value, op, w.jti), Authorizes(op), Forgets(op), w);
      } else {
        SnapshotIsUsable(setup.cfg, m.state, false, w.clock(Answering));
        SnapshotIsUsable(setup.cfg, m.state, false, w.clock(Deciding));
      }
    }
  }

  lemma EndLockedBacked(setup: Setup, m: Machine, reason: string, w: World)
    ensures Backed(setup, EndLocked(setup, m, reason, w), w)
  {
    SnapshotIsUsable(setup.cfg, m.state, false, w.clock(Answering));
    var begun := WithPendingEnd(setup, m, reason, w);
    if !(m.state.epoch.ended || (m.state.epoch.lease.None? && m.state.epoch.pendingEnd.None?)) && begun.failure.None? {
      SendEndBacked(setup, begun.machine, begun.machine.state.epoch.pendingEnd.value, w);
    }
  }

  lemma SendEndBacked(setup: Setup, m: Machine, request: PreparedRequest, w: World)
    ensures Backed(setup, SendEnd(setup, m, request, w), w)
  {
    match Process(setup.cfg, m.ring, Final(setup.cfg, w.network), request)
    case Err(f) =>
    case Ok(p) =>
      var accepted := Accept(setup, m.(ring := p.ring), p.response, false, w.clock);
      SnapshotIsUsable(setup.cfg, accepted.machine.state, false, w.clock(Answering));
  }

  /** No operation ever hands out a lease that is not usable at that moment. */
  lemma OnlyUsableLeases(setup: Setup, m: Machine, op: Operation, w: World)
    ensures Backed(setup, Operate(setup, m, op, w), w)
  {
    var o := Loaded(setup, m, op, w);
    if o.failure.None? {
      if op.End? {
        EndLockedBacked(setup, o.machine, op.reason, w);
      } else {
        PerformBacked(setup, o.machine, op, w);
      }
    }
  }
}
