/** What is saved can be opened again. */
module Reopening {
  import opened Outcomes
  import opened Tokens
  import opened KeyChain
  import opened Exchange
  import opened Persistence
  import opened Session
  import opened Crashes
  import opened Safety
  import opened Verdicts

  /** The tokens agree with each other and with the high-water marks. */
  predicate Consistent(s: State) {
    Agree(s.epoch, s.keysetSequence, s.epoch.lease, s.epoch.status)
  }

  predicate FitsEpoch(e: Epoch) {
    && SafeNonnegative(e.statusSequence) && SafeNonnegative(e.highestGeneration) && SafeNonnegative(e.minimumGeneration)
    && |e.authorizationId| <= 256
  }

  /** The numbers and texts are in the ranges a document may hold. */
  predicate Fits(s: State) {
    && FitsEpoch(s.epoch) && SafeNonnegative(s.keysetSequence) && ValidTime(s.time)
    && 0 <= s.retryFailures <= 30 && Timestamp(s.nextRetry)
    && (s.storedLicenseKey.Some? ==> |s.storedLicenseKey.value| <= 4096)
  }

  predicate Good(s: State) {
    Consistent(s) && Fits(s)
  }

  /** What a document may hold at most: 1024 links, 65536 characters in a link, 1048576 bytes in all. */
  predicate WithinLimits(setup: Setup, d: Document) {
    ValidChain(d.keyTransitions) && Bearable(setup, d)
  }

  /**
   * A saved document opens exactly when its state agrees with itself, its numbers are in their ranges, and it is within
   * the limits.
   */
  lemma OpensExactly(setup: Setup, m: Machine, r: Reading)
    requires Sound(setup) && Inv(setup, m) && setup.cfg.persistent
    ensures Open(setup, m.store.value, setup.cfg.thumbprint, setup.cfg.keyReference, r).Ok?
            <==> Good(m.state) && WithinLimits(setup, m.store.value)
  {
    SavedParses(setup, m.state, r);
    SignatureHolds(setup, m.state);
    var restored := Restore(setup.cfg, m.state.keyTransitions, m.state.keysetSequence);
    TokensOfSaved(setup.cfg, m.state.epoch, m.state.keysetSequence, restored.value);
  }

  /** A reload by the session itself succeeds exactly then, too. */
  lemma ReloadsExactly(setup: Setup, m: Machine, r: Reading)
    requires Sound(setup) && Inv(setup, m) && setup.cfg.persistent
    ensures Reload(setup, m, r).failure.None? <==> Good(m.state) && WithinLimits(setup, m.store.value)
  {
    OpensExactly(setup, m, r);
  }

  lemma SavedParses(setup: Setup, s: State, r: Reading)
    requires Sound(setup) && Owned(setup.cfg, s) && !s.allowsUnsigned && Coherent(s.epoch)
    requires s.stateSignature == Some(setup.sign(Serialize(setup.cfg, s, false)))
    ensures ParseState(setup.cfg, Serialize(setup.cfg, s, true), r).Ok? <==> Fits(s) && ValidChain(s.keyTransitions)
    ensures Fits(s) && ValidChain(s.keyTransitions) ==>
              ParseState(setup.cfg, Serialize(setup.cfg, s, true), r)
                  == Ok(s.(epoch := s.epoch.(lease := None, status := None)))
  {
    if s.epoch.pendingEnd.Some? {
      PreparedRoundTrip(s.epoch.pendingEnd.value);
    }
    ParseSaved(setup, s, r);
    assert Encodes(setup.sign(Serialize(setup.cfg, s, false)), 64);
  }

  lemma SignatureHolds(setup: Setup, s: State)
    requires Sound(setup)
    ensures var u := s.(epoch := s.epoch.(lease := None, status := None));
            setup.checks(Serialize(setup.cfg, u, false), setup.sign(Serialize(setup.cfg, s, false)))
  {
    var u := s.(epoch := s.epoch.(lease := None, status := None));
    assert Serialize(setup.cfg, u, false) == Serialize(setup.cfg, s, false);
  }

  // ---- the server ----

  /** The status that goes with the lease a response leaves. */
  function HeldStatus(e: Epoch, response: Response, authorizing: bool): Option<Status> {
    Newer(response.status, if authorizing && response.lease.Some? then None else e.status)
  }

  /**
   * A lease that stays belongs to the known authorization, unless it is a new one, and the status concerns that lease.
   */
  predicate Fitting(e: Epoch, response: Response, authorizing: bool) {
    var held, status := Concerned(e, response), HeldStatus(e, response, authorizing);
    held.Some? && !Withdraws(response, held) ==>
      && (!authorizing && response.lease.Some? ==> response.lease.value.authorizationId == e.authorizationId)
      && (status.Some? ==> SameGrant(status.value, held.value))
  }

  predicate SamePlace(l: Lease, k: Lease) {
    l.authorizationId == k.authorizationId && l.deviceId == k.deviceId
  }

  /** A server that keeps a lease's identifiers unless it grants a new one, and reports the status of the held lease. */
  predicate Faithful(e: Epoch, response: Response, authorizing: bool) {
    && (!authorizing && response.lease.Some? && e.lease.Some? ==> SamePlace(response.lease.value, e.lease.value))
    && (response.status.Some? && Concerned(e, response).Some? ==>
          SameGrant(response.status.value, Concerned(e, response).value))
  }

  /** A faithful server's responses fit. */
  lemma FaithfulFits(e: Epoch, sequence: int, response: Response, authorizing: bool)
    requires Agree(e, sequence, e.lease, e.status) && (authorizing || e.lease.Some?)
    requires Faithful(e, response, authorizing)
    ensures Fitting(e, response, authorizing)
  {
  }

  /** So does whatever carries no token. */
  lemma UnsignedFits(e: Epoch, sequence: int, response: Response, authorizing: bool)
    requires Agree(e, sequence, e.lease, e.status) && !Signed(response)
    ensures Fitting(e, response, authorizing)
  {
  }

  /** An accepted response leaves an epoch that agrees with itself exactly when it fits. */
  lemma JudgedAgreesExactly(e: Epoch, sequence: int, response: Response, authorizing: bool)
    requires Coherent(e) && Agree(e, sequence, e.lease, e.status) && sequence <= response.keysetSequence
    requires Admissible(e, response, authorizing) && Ranged(response)
    ensures var j := Judged(e, response, authorizing);
            Agree(j, response.keysetSequence, j.lease, j.status) <==> Fitting(e, response, authorizing)
  {
    JudgedCoherent(e, response, authorizing);
    JudgedMeans(e, response, authorizing);
    JudgedMarksMean(e, response, authorizing);
  }

  // ---- the clock, and the numbers in a response ----

  /** Readings a day away from the largest timestamp, and not negative. */
  predicate InRange(r: Reading) {
    0 <= r.wall <= MAX_TIME - 86400 && r.monotonic >= 0
  }

  ghost predicate ClockInRange(c: Clock) {
    forall moment: Moment :: InRange(c(moment))
  }

  /** What verification says about the numbers in a response. */
  predicate Ranged(response: Response) {
    && (response.lease.Some? ==>
          && SafePositive(response.lease.value.generation) && Timestamp(response.lease.value.issuedAt)
          && Timestamp(response.lease.value.expiresAt) && |response.lease.value.authorizationId| == 36)
    && (response.status.Some? ==> SafeNonnegative(response.status.value.sequence)
                                  && SafePositive(response.status.value.minimumGeneration)
                                  && response.status.value.keysetSequence <= response.keysetSequence
                                  && Timestamp(response.status.value.issuedAt))
    && (response.decision.Some? ==> Timestamp(response.decision.value.issuedAt))
    && (response.retryAfter.Some? ==> response.retryAfter.value <= 86400)
  }

  lemma ReceivedRanged(cfg: Config, ring: Ring, raw: Raw, request: PreparedRequest)
    requires Process(cfg, ring, raw, request).Ok?
    ensures Ranged(Process(cfg, ring, raw, request).value.response)
  {
    ProcessExtends(cfg, ring, raw, request);
    ProcessVerifies(cfg, ring, raw, request);
    var p := Process(cfg, ring, raw, request).value;
    TokensRanged(cfg, p.ring, request, p.response);
  }

  lemma TokensRanged(cfg: Config, ring: Ring, request: PreparedRequest, r: Response)
    requires r.lease.Some? ==>
               VerifyLease(cfg, r.lease.value.compact, Some(request.requestJti), request.expectedHwid, ring)
                   == Ok(r.lease.value)
    requires r.status.Some? ==>
               && (exists l ::
                     VerifyStatus(cfg, r.status.value.compact, Some(request.requestJti), l, ring) == Ok(r.status.value))
               && r.keysetSequence >= r.status.value.keysetSequence
    requires r.decision.Some? ==>
               exists l :: VerifyDecision(cfg, r.decision.value.compact, request.requestJti, l, r.status, ring)
                   == Ok(r.decision.value)
    requires r.retryAfter.Some? ==> r.retryAfter.value <= 86400
    ensures Ranged(r)
  {
    if r.lease.Some? {
      LeaseMeans(cfg, r.lease.value.compact, Some(request.requestJti), request.expectedHwid, ring);
    }
    if r.status.Some? {
      var l :| VerifyStatus(cfg, r.status.value.compact, Some(request.requestJti), l, ring) == Ok(r.status.value);
      StatusMeans(cfg, r.status.value.compact, Some(request.requestJti), l, ring);
    }
    if r.decision.Some? {
      var l :| VerifyDecision(cfg, r.decision.value.compact, request.requestJti, l, r.status, ring)
          == Ok(r.decision.value);
      DecisionMeans(cfg, r.decision.value.compact, request.requestJti, l, r.status, ring);
    }
  }

  lemma WithStatusFits(e: Epoch, response: Response)
    requires FitsEpoch(e) && Ranged(response)
    ensures FitsEpoch(WithStatus(e, response))
  {
  }

  lemma WithDecisionFits(e: Epoch, response: Response)
    requires FitsEpoch(e)
    ensures FitsEpoch(WithDecision(e, response))
  {
  }

  lemma JudgedFits(e: Epoch, response: Response, authorizing: bool)
    requires FitsEpoch(e) && Ranged(response)
    ensures FitsEpoch(Judged(e, response, authorizing))
  {
    var leased := WithLease(e, response, authorizing);
    WithStatusFits(leased, response);
    WithDecisionFits(WithStatus(leased, response), response);
  }

  // ---- accept ----

  lemma PersistGood(setup: Setup, m: Machine, r: Reading)
    requires Fits(m.state) && InRange(r)
    ensures Fits(Persist(setup, m, r).state) && (Consistent(Persist(setup, m, r).state) <==> Consistent(m.state))
  {
  }

  lemma CommittedGood(cfg: Config, s: State, links: seq<string>, response: Response, authorizing: bool, r: Reading)
    requires Good(s) && Coherent(s.epoch) && InRange(r) && Ranged(response)
    requires !MovedBack(s, response, authorizing) && (authorizing || s.epoch.lease.Some?)
    requires Restore(cfg, links, response.keysetSequence).Ok?
    ensures var t := Committed(s, links, response, authorizing, r);
            Fits(t) && (Consistent(t) <==> Fitting(s.epoch, response, authorizing))
  {
    JudgedAgreesExactly(s.epoch, s.keysetSequence, response, authorizing);
    JudgedFits(s.epoch, response, authorizing);
    ReplayExtends(cfg, links, Chain(0, cfg.pinned));
  }

  /**
   * A response that accept commits to leaves a state that agrees with itself, and so can be opened, exactly when it
   * fits.
   */
  lemma AcceptExactly(setup: Setup, m: Machine, response: Response, authorizing: bool, c: Clock)
    requires Inv(setup, m) && Good(m.state) && ClockInRange(c) && Ranged(response)
    requires authorizing || m.state.epoch.lease.Some?
    ensures var o := Accept(setup, m, response, authorizing, c);
            && Fits(o.machine.state)
            && (o.failure.None? && !Stale(response) ==>
                  (Consistent(o.machine.state) <==> Fitting(m.state.epoch, response, authorizing)))
            && (o.failure.Some? || Stale(response) ==> o.machine.state == m.state)
  {
    if !MovedBack(m.state, response, authorizing) {
      if Stale(response) {
        ReloadKeepsState(setup, m, c(Anchoring));
      } else {
        var links := m.state.keyTransitions + response.keyTransitions;
        var restored := Restore(setup.cfg, links, response.keysetSequence);
        if restored.Ok? {
          CommittedGood(setup.cfg, m.state, links, response, authorizing, c(Anchoring));
          var s := Committed(m.state, links, response, authorizing, c(Anchoring));
          PersistGood(setup, m.(state := s, ring := restored.value), c(SavingAccepted));
        }
      }
    }
  }

  // ---- every document that is written ----

  /** The document of some machine whose state agrees with itself and fits. */
  ghost predicate Solid(setup: Setup, d: Document) {
    exists m: Machine :: Inv(setup, m) && Good(m.state) && m.store == Some(d)
  }

  /** Everything holds that reopening asks for, of the state and of every document written so far. */
  ghost predicate Fine(setup: Setup, m: Machine) {
    && setup.cfg.persistent && Inv(setup, m) && Good(m.state)
    && m.store.Some? && m.store.value in m.written && forall d | d in m.written :: Solid(setup, d)
  }

  lemma SolidOpens(setup: Setup, d: Document, r: Reading)
    requires Sound(setup) && setup.cfg.persistent && Solid(setup, d)
    ensures Open(setup, d, setup.cfg.thumbprint, setup.cfg.keyReference, r).Ok? <==> WithinLimits(setup, d)
  {
    var m: Machine :| Inv(setup, m) && Good(m.state) && m.store == Some(d);
    OpensExactly(setup, m, r);
  }

  /** One more document is written, or none. */
  lemma OneMoreSolid(setup: Setup, m: Machine, n: Machine)
    requires setup.cfg.persistent && Inv(setup, n) && Good(n.state)
    requires forall d | d in m.written :: Solid(setup, d)
    requires n.store.Some? && n.written == m.written + [n.store.value]
    ensures Fine(setup, n)
  {
    assert Solid(setup, n.store.value);
  }

  lemma PersistFine(setup: Setup, m: Machine, r: Reading)
    requires setup.cfg.persistent && Coherent(m.state.epoch) && Owned(setup.cfg, m.state) && Derived(setup.cfg, m.state)
    requires Good(m.state) && InRange(r) && forall d | d in m.written :: Solid(setup, d)
    ensures Fine(setup, Persist(setup, m, r))
  {
    PersistInv(setup, m, r);
    PersistGood(setup, m, r);
    OneMoreSolid(setup, m, Persist(setup, m, r));
  }

  lemma AcceptFine(setup: Setup, m: Machine, after: Machine, response: Response, request: PreparedRequest, raw: Raw,
                   authorizing: bool, c: Clock)
    requires Fine(setup, m) && Synchronized(setup.cfg, m) && AfterProcess(setup.cfg, m, after, response, request, raw)
    requires ClockInRange(c) && (authorizing || m.state.epoch.lease.Some?)
    requires Fitting(m.state.epoch, response, authorizing)
    ensures Fine(setup, Accept(setup, after, response, authorizing, c).machine)
  {
    ReceivedRanged(setup.cfg, m.ring, raw, request);
    AcceptInv(setup, m, after, response, request, raw, authorizing, c);
    AcceptExactly(setup, after, response, authorizing, c);
    AcceptWrites(setup, after, response, authorizing, c);
    var n := Accept(setup, after, response, authorizing, c).machine;
    if n.written != after.written {
      OneMoreSolid(setup, after, n);
    }
  }

  /** accept writes one document or none. */
  lemma AcceptWrites(setup: Setup, m: Machine, response: Response, authorizing: bool, c: Clock)
    requires Inv(setup, m) && setup.cfg.persistent
    ensures var n := Accept(setup, m, response, authorizing, c).machine;
            || (n.written == m.written && n.store == m.store)
            || (n.store.Some? && n.written == m.written + [n.store.value])
  {
    if !MovedBack(m.state, response, authorizing) && Stale(response) {
      ReloadKeepsState(setup, m, c(Anchoring));
    }
  }

  // ---- the operations ----

  lemma RetryDelayRange(s: State, failures: int, now: int, retryAfter: Option<nat>, jitter: nat)
    requires 0 <= now <= MAX_TIME - 86400 && 0 <= failures
    requires retryAfter.Some? ==> retryAfter.value <= 86400
    ensures Timestamp(now + RetryDelay(s, failures, now, retryAfter, jitter))
  {
  }

  lemma ScheduleRetryFine(setup: Setup, m: Machine, retryAfter: Option<nat>, jitter: nat, c: Clock)
    requires Fine(setup, m) && ClockInRange(c) && (retryAfter.Some? ==> retryAfter.value <= 86400)
    ensures Fine(setup, ScheduleRetry(setup, m, retryAfter, jitter, c))
  {
    var failures := Min(m.state.retryFailures + 1, 30);
    var now := c(Retrying).wall;
    assert InRange(c(Retrying)) && InRange(c(SavingRetry));
    RetryDelayRange(m.state, failures, now, retryAfter, jitter);
    RescheduledFine(setup, m, failures, now + RetryDelay(m.state, failures, now, retryAfter, jitter), c(SavingRetry));
  }

  lemma RescheduledFine(setup: Setup, m: Machine, failures: int, next: int, r: Reading)
    requires Fine(setup, m) && InRange(r) && 0 <= failures <= 30 && Timestamp(next)
    ensures Fine(setup, Persist(setup, m.(state := m.state.(retryFailures := failures, nextRetry := next)), r))
  {
    PersistFine(setup, m.(state := m.state.(retryFailures := failures, nextRetry := next)), r);
  }

  lemma CaughtFine(setup: Setup, m: Machine, failure: Failure, ending: bool, w: World, posted: seq<PreparedRequest>,
                   heard: Option<Response>)
    requires Fine(setup, m) && ClockInRange(w.clock)
    ensures Fine(setup, Caught(setup, m, failure, ending, w, posted, heard).machine)
  {
    ScheduleRetryFine(setup, m, None, w.jitter, w.clock);
  }

  lemma ConcludeFine(setup: Setup, m: Machine, response: Response, authorizing: bool, forgetMissingKey: bool, w: World)
    requires Fine(setup, m) && ClockInRange(w.clock) && Ranged(response)
    ensures Fine(setup, Conclude(setup, m, response, authorizing, forgetMissingKey, w).0)
  {
    KeepingFine(setup, m, response, forgetMissingKey, w);
    ScheduleRetryFine(setup, Keeping(setup, m, response, forgetMissingKey, w), response.retryAfter, w.jitter, w.clock);
  }

  lemma KeepingFine(setup: Setup, m: Machine, response: Response, forgetMissingKey: bool, w: World)
    requires Fine(setup, m) && ClockInRange(w.clock)
    ensures Fine(setup, Keeping(setup, m, response, forgetMissingKey, w))
  {
    assert InRange(w.clock(SavingLast));
    PersistFine(setup, m.(state := m.state.(storedLicenseKey := None)), w.clock(SavingLast));
  }

  /** The response the operation heard fits. */
  predicate FittingAnswer(e: Epoch, a: Answer, authorizing: bool) {
    a.heard.Some? ==> Fitting(e, a.heard.value, authorizing)
  }

  lemma ExecuteFine(setup: Setup, m: Machine, prepared: Result<PreparedRequest>, authorizing: bool,
                    forgetMissingKey: bool, w: World)
    requires Fine(setup, m) && Synchronized(setup.cfg, m) && ClockInRange(w.clock)
    requires authorizing || m.state.epoch.lease.Some?
    requires FittingAnswer(m.state.epoch, Execute(setup, m, prepared, authorizing, forgetMissingKey, w), authorizing)
    ensures Fine(setup, Execute(setup, m, prepared, authorizing, forgetMissingKey, w).machine)
  {
    if prepared.Ok? {
      var raw, posted := Final(setup.cfg, w.network), Postings(setup.cfg, prepared.value, w);
      match Process(setup.cfg, m.ring, raw, prepared.value)
      case Err(f) => CaughtFine(setup, m, f, false, w, posted, None);
      case Ok(p) =>
        ReceivedRanged(setup.cfg, m.ring, raw, prepared.value);
        var received := m.(ring := p.ring);
        assert Fine(setup, received);
        var accepted := if Signed(p.response) then Accept(setup, received, p.response, authorizing, w.clock)
            else Outcome(received, None);
        if Signed(p.response) {
          AcceptFine(setup, m, received, p.response, prepared.value, raw, authorizing, w.clock);
        }
        if accepted.failure.Some? {
          CaughtFine(setup, accepted.machine, accepted.failure.value, false, w, posted, Heard(p.response));
        } else {
          ConcludeFine(setup, accepted.machine, p.response, authorizing, forgetMissingKey, w);
        }
    }
  }

  lemma FinishEndFine(setup: Setup, m: Machine, after: Machine, response: Response, request: PreparedRequest, w: World,
                      posted: seq<PreparedRequest>)
    requires Fine(setup, m) && Synchronized(setup.cfg, m) && m.state.epoch.lease.Some? && ClockInRange(w.clock)
    requires AfterProcess(setup.cfg, m, after, response, request, Final(setup.cfg, w.network))
    requires Signed(response) && !Overloaded(response) ==> Fitting(m.state.epoch, response, false)
    ensures Fine(setup, FinishEnd(setup, after, response, w, posted).machine)
  {
    if Overloaded(response) {
      ReceivedRanged(setup.cfg, m.ring, Final(setup.cfg, w.network), request);
      assert Fine(setup, after);
      ScheduleRetryFine(setup, after, response.retryAfter, w.jitter, w.clock);
    } else {
      AcceptEndFine(setup, m, after, response, request, Final(setup.cfg, w.network), w.clock);
      FinishFine(setup, Accept(setup, after, response, false, w.clock), response, w, posted);
    }
  }

  lemma AcceptEndFine(setup: Setup, m: Machine, after: Machine, response: Response, request: PreparedRequest, raw: Raw,
                      clock: Clock)
    requires Fine(setup, m) && Synchronized(setup.cfg, m) && m.state.epoch.lease.Some? && ClockInRange(clock)
    requires AfterProcess(setup.cfg, m, after, response, request, raw)
    requires Signed(response) ==> Fitting(m.state.epoch, response, false)
    ensures Fine(setup, Accept(setup, after, response, false, clock).machine)
  {
    if !Signed(response) {
      UnsignedFits(m.state.epoch, m.state.keysetSequence, response, false);
    }
    AcceptFine(setup, m, after, response, request, raw, false, clock);
  }

  /** What endLocked does once the answer is accepted. */
  lemma FinishFine(setup: Setup, accepted: Outcome, response: Response, w: World, posted: seq<PreparedRequest>)
    requires Fine(setup, accepted.machine) && ClockInRange(w.clock)
    ensures Fine(setup, Finish(setup, accepted, response, w, posted).machine)
  {
    var m := accepted.machine;
    if accepted.failure.Some? {
      CaughtFine(setup, m, accepted.failure.value, true, w, posted, Heard(response));
    }
    assert InRange(w.clock(SavingLast));
    if !m.state.epoch.revoked {
      var ended := m.state.epoch.(ending := false, ended := true, lease := None, leaseCompact := None,
                                  pendingEnd := None);
      PersistFine(setup, m.(state := m.state.(epoch := ended)), w.clock(SavingLast));
    }
  }

  lemma WithPendingEndFine(setup: Setup, m: Machine, reason: string, w: World)
    requires Fine(setup, m) && ClockInRange(w.clock)
    ensures Fine(setup, WithPendingEnd(setup, m, reason, w).machine)
  {
    var e := m.state.epoch;
    if e.pendingEnd.None? && e.lease.Some? {
      var prepared := Prepare(setup, "end", EndAsk(reason), None, Some(e.lease.value.compact), m.state, m.ring, w.jti);
      if prepared.Ok? {
        PreparedEndRetryable(setup, reason, e.lease.value.compact, m.state, m.ring, w.jti);
        PendingFine(setup, m, prepared.value, w);
      }
    }
  }

  lemma PendingFine(setup: Setup, m: Machine, request: PreparedRequest, w: World)
    requires Fine(setup, m) && ClockInRange(w.clock) && m.state.epoch.lease.Some? && Retryable(request)
    ensures var pending := m.state.epoch.(pendingEnd := Some(request), ending := true);
            Fine(setup, Persist(setup, m.(state := m.state.(epoch := pending)), w.clock(SavingFirst)))
  {
    var pending := m.state.epoch.(pendingEnd := Some(request), ending := true);
    assert InRange(w.clock(SavingFirst));
    PersistFine(setup, m.(state := m.state.(epoch := pending)), w.clock(SavingFirst));
  }

  lemma WithPendingEndSame(setup: Setup, m: Machine, reason: string, w: World)
    ensures var e, f := m.state.epoch, WithPendingEnd(setup, m, reason, w).machine.state.epoch;
            f.lease == e.lease && f.status == e.status && f.authorizationId == e.authorizationId
  {
  }

  lemma EndLockedFine(setup: Setup, m: Machine, reason: string, w: World)
    requires Fine(setup, m) && Synchronized(setup.cfg, m) && ClockInRange(w.clock)
    requires FittingAnswer(m.state.epoch, EndLocked(setup, m, reason, w), false)
    ensures Fine(setup, EndLocked(setup, m, reason, w).machine)
  {
    if !(m.state.epoch.ended || (m.state.epoch.lease.None? && m.state.epoch.pendingEnd.None?)) {
      var begun := WithPendingEnd(setup, m, reason, w);
      WithPendingEndInv(setup, m, reason, w);
      WithPendingEndFine(setup, m, reason, w);
      WithPendingEndSame(setup, m, reason, w);
      if begun.failure.None? {
        SendEndFine(setup, begun.machine, begun.machine.state.epoch.pendingEnd.value, w);
      }
    }
  }

  lemma SendEndFine(setup: Setup, m: Machine, request: PreparedRequest, w: World)
    requires Fine(setup, m) && Synchronized(setup.cfg, m) && m.state.epoch.lease.Some? && ClockInRange(w.clock)
    requires FittingAnswer(m.state.epoch, SendEnd(setup, m, request, w), false)
    ensures Fine(setup, SendEnd(setup, m, request, w).machine)
  {
    match Process(setup.cfg, m.ring, Final(setup.cfg, w.network), request)
    case Err(f) => CaughtFine(setup, m, f, true, w, Postings(setup.cfg, request, w), None);
    case Ok(p) => FinishEndFine(setup, m, m.(ring := p.ring), p.response, request, w, Postings(setup.cfg, request, w));
  }

  lemma PerformFine(setup: Setup, m: Machine, op: Operation, w: World)
    requires Fine(setup, m) && Synchronized(setup.cfg, m) && ClockInRange(w.clock)
    requires FittingAnswer(m.state.epoch, Perform(setup, m, op, w), Authorizes(op))
    ensures Fine(setup, Perform(setup, m, op, w).machine)
  {
    if op.End? {
      EndLockedFine(setup, m, op.reason, w);
    } else if Sender(setup, m, op, w).Some? {
      var n := Sender(setup, m, op, w).value;
      SenderInv(setup, m, op, w);
      if op.AuthorizeWithKey? {
        assert InRange(w.clock(SavingFirst));
        PersistFine(setup, m.(state := m.state.(storedLicenseKey := Some(op.key))), w.clock(SavingFirst));
      }
      ExecuteFine(setup, n, RequestOf(setup, n, op, w.jti), Authorizes(op), Forgets(op), w);
    }
  }

  /** With fitting responses and a clock in range, every operation leaves and writes only what can be opened. */
  lemma OperateFine(setup: Setup, m: Machine, op: Operation, w: World)
    requires Fine(setup, m) && ClockInRange(w.clock)
    requires FittingAnswer(m.state.epoch, Operate(setup, m, op, w), Authorizes(op))
    ensures Fine(setup, Operate(setup, m, op, w).machine)
  {
    LoadedInv(setup, m, op, w);
    var o := Loaded(setup, m, op, w);
    if op.Restart? {
      OpenKeepsState(setup, m, w.clock(Loading));
      var reopened := Open(setup, m.store.value, setup.cfg.thumbprint, setup.cfg.keyReference, w.clock(Loading));
      if reopened.Ok? {
        assert InRange(w.clock(SavingFirst));
        PersistFine(setup, Machine(reopened.value.0, reopened.value.1, m.store, m.written), w.clock(SavingFirst));
      }
    } else {
      ReloadKeepsState(setup, m, w.clock(Loading));
      if o.failure.None? {
        PerformFine(setup, o.machine, op, w);
      }
    }
  }

  lemma StartFine(setup: Setup, saved: Option<Document>, first: World)
    requires setup.cfg.persistent && ClockInRange(first.clock) && Starts(setup, saved, first)
    ensures Fine(setup, Start(setup, saved, first))
  {
    NothingRestored(setup.cfg);
    assert InRange(first.clock(Loading)) && InRange(first.clock(Deciding)) && InRange(first.clock(SavingFirst));
    if saved.None? {
      var blank := Machine(NewState(setup.cfg, first.clock(Deciding)), setup.cfg.pinned, saved, []);
      PersistFine(setup, blank, first.clock(SavingFirst));
    } else {
      OpenMigrates(setup, saved.value, first.clock(Loading));
      var (s, ring) := Open(setup, saved.value, setup.cfg.thumbprint, setup.cfg.keyReference,
                            first.clock(Loading)).value;
      PersistFine(setup, Machine(s, ring, saved, []), first.clock(SavingFirst));
    }
  }

  // ---- runs ----

  /** The response fits, and the clock is in range. */
  ghost function Benignly(): (Machine, Step, Answer) -> bool {
    (m: Machine, step: Step, a: Answer) =>
      ClockInRange(step.world.clock) && FittingAnswer(m.state.epoch, a, Authorizes(step.op))
  }

  /** A run in which every operation met fitting responses and a clock in range. */
  ghost predicate Benign(m: Machine, steps: seq<Step>, answers: seq<Answer>) {
    Linked(Benignly(), m, steps, answers)
  }

  // ---- interrupted operations ----

  lemma EarlyFine(setup: Setup, m: Machine, op: Operation, w: World, c: Machine)
    requires Fine(setup, m) && ClockInRange(w.clock) && Early(setup, m, op, w, c)
    ensures Fine(setup, c)
  {
    if op.End? {
      WithPendingEndFine(setup, m, op.reason, w);
    } else if op.AuthorizeWithKey? {
      assert InRange(w.clock(SavingFirst));
      PersistFine(setup, m.(state := m.state.(storedLicenseKey := Some(op.key))), w.clock(SavingFirst));
    }
  }

  /** Fitting depends on nothing that is saved before the request is sent. */
  lemma SendingFits(setup: Setup, m: Machine, op: Operation, w: World, response: Response)
    requires Sending(setup, m, op, w).Some?
    ensures Fitting(m.state.epoch, response, Authorizes(op))
            <==> Fitting(Sending(setup, m, op, w).value.0.state.epoch, response, Authorizes(op))
  {
  }

  lemma TakenFine(setup: Setup, m: Machine, op: Operation, w: World)
    requires Fine(setup, m) && Synchronized(setup.cfg, m) && ClockInRange(w.clock) && Taken(setup, m, op, w).Some?
    requires var response := Answered(setup, m, op, w).value.1;
             Signed(response) ==> Fitting(m.state.epoch, response, Authorizes(op))
    ensures Fine(setup, Taken(setup, m, op, w).value.machine)
  {
    SendingInv(setup, m, op, w);
    var (n, request) := Sending(setup, m, op, w).value;
    var (received, response) := Answered(setup, m, op, w).value;
    EarlyFine(setup, m, op, w, n);
    if Signed(response) {
      SendingFits(setup, m, op, w, response);
    } else {
      UnsignedFits(n.state.epoch, n.state.keysetSequence, response, Authorizes(op));
    }
    AcceptFine(setup, n, received, response, request, Final(setup.cfg, w.network), Authorizes(op), w.clock);
  }

  lemma LateFine(setup: Setup, m: Machine, op: Operation, w: World, c: Machine)
    requires Late(setup, m, op, w, c) && ClockInRange(w.clock) && Fine(setup, Taken(setup, m, op, w).value.machine)
    ensures Fine(setup, c)
  {
    KeepingFine(setup, Taken(setup, m, op, w).value.machine, Answered(setup, m, op, w).value.1, Forgets(op), w);
  }

  lemma StopsLateFine(setup: Setup, m: Machine, op: Operation, w: World, a: Answer)
    requires Fine(setup, m) && ClockInRange(w.clock) && StopsLate(setup, m, op, w, a)
    requires FittingAnswer(m.state.epoch, a, Authorizes(op))
    ensures Fine(setup, a.machine)
  {
    LoadedState(setup, m, op, w);
    LoadedLog(setup, m, op, w);
    var loaded := Loaded(setup, m, op, w).machine;
    HeardIs(setup, loaded, op, w);
    TakenFine(setup, loaded, op, w);
    LateFine(setup, loaded, op, w, a.machine);
  }

  /** Wherever an operation is interrupted, it has written only what can be opened. */
  lemma InterruptedFine(setup: Setup, m: Machine, op: Operation, w: World, a: Answer)
    requires Fine(setup, m) && ClockInRange(w.clock) && Interrupted(setup, m, op, w, a)
    requires FittingAnswer(m.state.epoch, a, Authorizes(op))
    ensures Fine(setup, a.machine)
  {
    if StopsLate(setup, m, op, w, a) {
      StopsLateFine(setup, m, op, w, a);
    } else if StopsEarly(setup, m, op, w, a) {
      LoadedState(setup, m, op, w);
      LoadedLog(setup, m, op, w);
      EarlyFine(setup, Loaded(setup, m, op, w).machine, op, w, a.machine);
    }
  }

  lemma FineStep(setup: Setup, m: Machine, steps: seq<Step>, answers: seq<Answer>, k: nat)
    requires Run(setup, m, steps, answers) && Benign(m, steps, answers) && k < |steps|
    requires Fine(setup, Before(m, answers, k))
    ensures Fine(setup, Before(m, answers, k + 1))
  {
    PerformsIs(setup, Before(m, answers, k), steps[k], answers[k]);
    var n, step := Before(m, answers, k), steps[k];
    assert Benignly()(n, step, answers[k]);
    if answers[k] == Operate(setup, n, step.op, step.world) {
      OperateFine(setup, n, step.op, step.world);
    } else {
      InterruptedFine(setup, n, step.op, step.world, answers[k]);
    }
  }

  lemma {:induction false} RunFine(setup: Setup, m: Machine, steps: seq<Step>, answers: seq<Answer>, i: nat)
    requires Fine(setup, m) && Run(setup, m, steps, answers) && Benign(m, steps, answers) && i <= |steps|
    ensures Fine(setup, Before(m, answers, i))
  {
    if i > 0 {
      RunFine(setup, m, steps, answers, i - 1);
      FineStep(setup, m, steps, answers, i - 1);
    }
  }

  // ---- a faithful server ----

  /** Only a session that authorizes or holds a lease gets an answer. */
  lemma HeardWithLease(setup: Setup, m: Machine, op: Operation, w: World)
    requires Inv(setup, m) && (setup.cfg.persistent ==> Synchronized(setup.cfg, m))
    ensures Perform(setup, m, op, w).heard.Some? ==> Authorizes(op) || m.state.epoch.lease.Some?
  {
    if Sender(setup, m, op, w).Some? {
      SenderInv(setup, m, op, w);
    }
  }

  lemma FaithfulAnswer(setup: Setup, m: Machine, op: Operation, w: World)
    requires Fine(setup, m)
    requires var a := Operate(setup, m, op, w); a.heard.Some? ==> Faithful(m.state.epoch, a.heard.value, Authorizes(op))
    ensures FittingAnswer(m.state.epoch, Operate(setup, m, op, w), Authorizes(op))
  {
    var a := Operate(setup, m, op, w);
    if a.heard.Some? {
      ReloadKeepsState(setup, m, w.clock(Loading));
      LoadedInv(setup, m, op, w);
      HeardWithLease(setup, Loaded(setup, m, op, w).machine, op, w);
      FaithfulFits(m.state.epoch, m.state.keysetSequence, a.heard.value, Authorizes(op));
    }
  }

  /** The server is faithful, and the clock is in range. */
  ghost function Faithfully(): (Machine, Step, Answer) -> bool {
    (m: Machine, step: Step, a: Answer) =>
      && ClockInRange(step.world.clock)
      && (a.heard.Some? ==> Faithful(m.state.epoch, a.heard.value, Authorizes(step.op)))
  }

  /** Over every run a faithful server gives only fitting answers. */
  lemma FaithfulRun(setup: Setup, saved: Option<Document>, first: World, steps: seq<Step>, answers: seq<Answer>)
    requires setup.cfg.persistent && ClockInRange(first.clock)
    requires Starts(setup, saved, first) && Run(setup, Start(setup, saved, first), steps, answers)
    requires Linked(Faithfully(), Start(setup, saved, first), steps, answers)
    ensures Benign(Start(setup, saved, first), steps, answers)
  {
    StartFine(setup, saved, first);
    var m := Start(setup, saved, first);
    forall k | 0 <= k < |steps|
      ensures Benignly()(Before(m, answers, k), steps[k], answers[k])
    {
      FaithfulPrefix(setup, m, steps, answers, k);
      FaithfulStep(setup, Before(m, answers, k), steps[k], answers[k]);
    }
  }

  lemma {:induction false} FaithfulPrefix(setup: Setup, m: Machine, steps: seq<Step>, answers: seq<Answer>, i: nat)
    requires Fine(setup, m) && Run(setup, m, steps, answers) && Linked(Faithfully(), m, steps, answers) && i <= |steps|
    ensures Fine(setup, Before(m, answers, i))
  {
    if i > 0 {
      FaithfulPrefix(setup, m, steps, answers, i - 1);
      FaithfulStep(setup, Before(m, answers, i - 1), steps[i - 1], answers[i - 1]);
    }
  }

  lemma FaithfulStep(setup: Setup, m: Machine, step: Step, a: Answer)
    requires Fine(setup, m) && Performs(setup)(m, step, a) && Faithfully()(m, step, a)
    ensures Fine(setup, a.machine) && Benignly()(m, step, a)
  {
    PerformsIs(setup, m, step, a);
    if a == Operate(setup, m, step.op, step.world) {
      FaithfulAnswer(setup, m, step.op, step.world);
      OperateFine(setup, m, step.op, step.world);
    } else {
      if StopsLate(setup, m, step.op, step.world, a) {
        FaithfulAnswer(setup, m, step.op, step.world);
      }
      InterruptedFine(setup, m, step.op, step.world, a);
    }
  }

  /**
   * Over every run of a persistent session with fitting responses and a clock in range: every document ever written,
   * also the ones written in the middle of an operation, opens exactly when it is within the limits, and the last one
   * opens to the very state that was saved.
   */
  lemma SavedCanBeReopened(setup: Setup, saved: Option<Document>, first: World, steps: seq<Step>, answers: seq<Answer>,
                           i: nat, r: Reading)
    requires Sound(setup) && setup.cfg.persistent && ClockInRange(first.clock) && i <= |steps|
    requires Starts(setup, saved, first) && Run(setup, Start(setup, saved, first), steps, answers)
    requires Benign(Start(setup, saved, first), steps, answers)
    ensures var n := Before(Start(setup, saved, first), answers, i);
            && (forall d | d in n.written ::
                  Open(setup, d, setup.cfg.thumbprint, setup.cfg.keyReference, r).Ok? <==> WithinLimits(setup, d))
            && n.store.Some? && n.store.value in n.written
            && var o := Open(setup, n.store.value, setup.cfg.thumbprint, setup.cfg.keyReference, r);
               o.Ok? ==> o.value.0 == n.state
  {
    StartFine(setup, saved, first);
    RunFine(setup, Start(setup, saved, first), steps, answers, i);
    var n := Before(Start(setup, saved, first), answers, i);
    forall d | d in n.written
      ensures Open(setup, d, setup.cfg.thumbprint, setup.cfg.keyReference, r).Ok? <==> WithinLimits(setup, d)
    {
      SolidOpens(setup, d, r);
    }
    OpenKeepsState(setup, n, r);
  }
}
