/** What every step of the session keeps. */
module Safety {
  import opened Outcomes
  import opened Tokens
  import opened KeyChain
  import opened Exchange
  import opened Persistence
  import opened Session
  import opened Crashes

  /** The flags, the lease and the high-water marks fit together. */
  predicate Coherent(e: Epoch) {
    && !(e.ended && e.revoked)
    && (e.ended || e.revoked ==> e.lease.None?)
    && (e.ending <==> e.pendingEnd.Some?)
    && (e.ending ==> e.lease.Some?)
    && (e.lease.Some? ==> e.lease.value.generation == e.highestGeneration >= e.minimumGeneration)
    && e.leaseCompact == (if e.lease.Some? then Some(e.lease.value.compact) else None)
    && e.statusCompact == (if e.status.Some? then Some(e.status.value.compact) else None)
  }

  // ---- the state updates of accept ----

  /** A lease the epoch can take: a new one, or a newer one for a held lease. */
  predicate Admissible(e: Epoch, response: Response, authorizing: bool) {
    && (response.lease.Some? ==> response.lease.value.generation > 0)
    && (response.lease.Some? && !authorizing ==>
          e.lease.Some? && response.lease.value.generation >= e.highestGeneration)
  }

  lemma WithLeaseCoherent(e: Epoch, response: Response, authorizing: bool)
    requires Coherent(e) && Admissible(e, response, authorizing)
    ensures Coherent(WithLease(e, response, authorizing))
  {
  }

  lemma WithStatusCoherent(e: Epoch, response: Response)
    requires Coherent(e)
    ensures Coherent(WithStatus(e, response))
  {
  }

  lemma WithDecisionCoherent(e: Epoch, response: Response)
    requires Coherent(e)
    ensures Coherent(WithDecision(e, response))
  {
  }

  /** accept's updates keep the epoch coherent. */
  lemma JudgedCoherent(e: Epoch, response: Response, authorizing: bool)
    requires Coherent(e) && Admissible(e, response, authorizing)
    ensures Coherent(Judged(e, response, authorizing))
  {
    WithLeaseCoherent(e, response, authorizing);
    var leased := WithLease(e, response, authorizing);
    WithStatusCoherent(leased, response);
    WithDecisionCoherent(WithStatus(leased, response), response);
  }

  // ---- the tokens and the ring ----

  /** The lease and the status still verify with the given ring. */
  ghost predicate Verified(cfg: Config, e: Epoch, ring: Ring) {
    && (e.lease.Some? ==> VerifyLease(cfg, e.lease.value.compact, None, None, ring) == Ok(e.lease.value))
    && (e.status.Some? ==> VerifyStatus(cfg, e.status.value.compact, None, None, ring) == Ok(e.status.value))
  }

  /** The ring is the one the saved chain derives from the pinned roots. */
  ghost predicate Synchronized(cfg: Config, m: Machine) {
    Restore(cfg, m.state.keyTransitions, m.state.keysetSequence) == Ok(m.ring)
  }

  /** The saved chain can be replayed and verifies the saved tokens. */
  ghost predicate Derived(cfg: Config, s: State) {
    var restored := Restore(cfg, s.keyTransitions, s.keysetSequence);
    restored.Ok? && Verified(cfg, s.epoch, restored.value)
  }

  /** The store holds exactly what the state would be saved as. */
  ghost predicate Mirrored(setup: Setup, m: Machine) {
    && !m.state.allowsUnsigned
    && m.state.stateSignature == Some(setup.sign(Serialize(setup.cfg, m.state, false)))
    && m.store == Some(Serialize(setup.cfg, m.state, true))
  }

  ghost predicate Owned(cfg: Config, s: State) {
    && s.thumbprint == cfg.thumbprint && s.keyReference == cfg.keyReference
    && (s.epoch.pendingEnd.Some? ==> Retryable(s.epoch.pendingEnd.value))
  }

  /** The invariant of a session between two operations. */
  ghost predicate Inv(setup: Setup, m: Machine) {
    && Coherent(m.state.epoch) && Owned(setup.cfg, m.state)
    && (setup.cfg.persistent ==> Derived(setup.cfg, m.state) && Mirrored(setup, m))
  }

  lemma PersistInv(setup: Setup, m: Machine, r: Reading)
    requires Coherent(m.state.epoch) && Owned(setup.cfg, m.state)
    requires setup.cfg.persistent ==> Derived(setup.cfg, m.state)
    ensures Inv(setup, Persist(setup, m, r))
    ensures Persist(setup, m, r).ring == m.ring && Persist(setup, m, r).state.epoch == m.state.epoch
  {
  }

  /** A saved state parses back to itself, without the verified tokens. */
  lemma ParseSaved(setup: Setup, s: State, r: Reading)
    requires Owned(setup.cfg, s) && !s.allowsUnsigned
    ensures var d := Serialize(setup.cfg, s, true);
            ParseState(setup.cfg, d, r).Ok? ==>
              ParseState(setup.cfg, d, r) == Ok(s.(epoch := s.epoch.(lease := None, status := None)))
  {
    if s.epoch.pendingEnd.Some? {
      PreparedRoundTrip(s.epoch.pendingEnd.value);
    }
  }

  /** The tokens of a saved state verify back to themselves. */
  lemma TokensOfSaved(cfg: Config, e: Epoch, keysetSequence: int, ring: Ring)
    requires Coherent(e) && Verified(cfg, e, ring)
    ensures var u := e.(lease := None, status := None);
            VerifyTokens(cfg, u, keysetSequence, ring)
            == if Agree(e, keysetSequence, e.lease, e.status) then Ok(Runtime(ring, e.lease, e.status))
               else if e.lease.Some? && e.status.Some? && !SameGrant(e.status.value, e.lease.value)
                   then Err(InvalidToken)
               else Err(InvalidState)
  {
    if e.status.Some? {
      StatusBack(cfg, e.status.value, e.lease, ring);
    }
  }

  lemma StatusBack(cfg: Config, status: Status, lease: Option<Lease>, ring: Ring)
    requires VerifyStatus(cfg, status.compact, None, None, ring) == Ok(status)
    ensures VerifyStatus(cfg, status.compact, None, lease, ring)
            == if lease.Some? && !SameGrant(status, lease.value) then Err(InvalidToken) else Ok(status)
  {
  }

  /** A reload brings back exactly the state that was saved, or fails without changing it. */
  lemma ReloadKeepsState(setup: Setup, m: Machine, r: Reading)
    requires Inv(setup, m)
    ensures var o := Reload(setup, m, r);
            o.machine.state == m.state && o.machine.store == m.store && o.machine.written == m.written
            && (setup.cfg.persistent && o.failure.None? ==> Synchronized(setup.cfg, o.machine))
            && (!setup.cfg.persistent ==> o.machine == m && o.failure.None?)
            && Inv(setup, o.machine)
  {
    if setup.cfg.persistent {
      ParseSaved(setup, m.state, r);
      var restored := Restore(setup.cfg, m.state.keyTransitions, m.state.keysetSequence);
      TokensOfSaved(setup.cfg, m.state.epoch, m.state.keysetSequence, restored.value);
    }
  }

  // ---- accept ----

  /** A decision ends the lease and the pending request or leaves them. */
  lemma DecisionTokens(e: Epoch, response: Response)
    ensures var j := WithDecision(e, response);
            (j.lease.Some? ==> j.lease == e.lease) && j.status == e.status
                && (j.pendingEnd.Some? ==> j.pendingEnd == e.pendingEnd)
  {
  }

  lemma StatusTokens(e: Epoch, response: Response)
    ensures var j := WithStatus(e, response);
            (j.lease.Some? ==> j.lease == e.lease) && j.status == Newer(response.status, e.status)
            && (j.pendingEnd.Some? ==> j.pendingEnd == e.pendingEnd)
  {
  }

  lemma LeaseTokens(e: Epoch, response: Response, authorizing: bool)
    ensures var j := WithLease(e, response, authorizing);
            j.lease == Newer(response.lease, e.lease)
            && j.status == (if authorizing && response.lease.Some? then None else e.status)
            && (j.pendingEnd.Some? ==> j.pendingEnd == e.pendingEnd)
  {
  }

  /** Which lease, status and pending request an epoch can have after a response. */
  lemma JudgedTokens(e: Epoch, response: Response, authorizing: bool)
    ensures var j := Judged(e, response, authorizing);
            && (j.lease.Some? ==> j.lease == Newer(response.lease, e.lease))
            && j.status == Newer(response.status, if authorizing && response.lease.Some? then None else e.status)
            && (j.pendingEnd.Some? ==> j.pendingEnd == e.pendingEnd)
  {
    LeaseTokens(e, response, authorizing);
    var leased := WithLease(e, response, authorizing);
    StatusTokens(leased, response);
    DecisionTokens(WithStatus(leased, response), response);
  }

  lemma JudgedVerified(cfg: Config, e: Epoch, response: Response, authorizing: bool, small: Ring, large: Ring)
    requires Verified(cfg, e, small) && Extends(large, small)
    requires response.lease.Some? ==> exists jti, hwid ::
            VerifyLease(cfg, response.lease.value.compact, jti, hwid, large) == Ok(response.lease.value)
    requires response.status.Some? ==> exists jti, l ::
            VerifyStatus(cfg, response.status.value.compact, jti, l, large) == Ok(response.status.value)
    ensures Verified(cfg, Judged(e, response, authorizing), large)
  {
    JudgedTokens(e, response, authorizing);
    VerifiedLarger(cfg, e, small, large);
    if response.lease.Some? {
      var compact := response.lease.value.compact;
      var jti, hwid :| VerifyLease(cfg, compact, jti, hwid, large) == Ok(response.lease.value);
      LeaseStaysVerified(cfg, compact, jti, hwid, large, large);
    }
    if response.status.Some? {
      var compact := response.status.value.compact;
      var jti, l :| VerifyStatus(cfg, compact, jti, l, large) == Ok(response.status.value);
      StatusStaysVerified(cfg, compact, jti, l, None, large, large);
    }
  }

  /** Growing the ring does not spoil what was verified. */
  lemma VerifiedLarger(cfg: Config, e: Epoch, small: Ring, large: Ring)
    requires Verified(cfg, e, small) && Extends(large, small)
    ensures Verified(cfg, e, large)
  {
    if e.lease.Some? {
      LeaseStaysVerified(cfg, e.lease.value.compact, None, None, small, large);
    }
    if e.status.Some? {
      StatusStaysVerified(cfg, e.status.value.compact, None, None, None, small, large);
    }
  }

  /** What processing a response in machine m leaves: the ring has grown, the rest is as it was. */
  ghost predicate AfterProcess(cfg: Config, m: Machine, after: Machine, response: Response, request: PreparedRequest,
                               raw: Raw) {
    && Process(cfg, m.ring, raw, request) == Ok(Processed(after.ring, response))
    && after == m.(ring := after.ring)
  }

  lemma ReceivedLease(cfg: Config, m: Machine, after: Machine, response: Response, request: PreparedRequest, raw: Raw)
    requires AfterProcess(cfg, m, after, response, request, raw)
    ensures response.lease.Some? ==> SafePositive(response.lease.value.generation)
  {
    ProcessExtends(cfg, m.ring, raw, request);
    ProcessVerifies(cfg, m.ring, raw, request);
    if response.lease.Some? {
      LeaseMeans(cfg, response.lease.value.compact, Some(request.requestJti), request.expectedHwid, after.ring);
    }
  }

  /** The full replay of the extended chain gives the ring that verified the response. */
  lemma RestoredIsReceived(cfg: Config, m: Machine, after: Machine, response: Response, request: PreparedRequest,
                           raw: Raw)
    requires AfterProcess(cfg, m, after, response, request, raw) && Synchronized(cfg, m)
    requires Restore(cfg, m.state.keyTransitions + response.keyTransitions, response.keysetSequence).Ok?
    ensures Restore(cfg, m.state.keyTransitions + response.keyTransitions, response.keysetSequence) == Ok(after.ring)
  {
    ProcessExtends(cfg, m.ring, raw, request);
    ProcessVerifies(cfg, m.ring, raw, request);
    var chain := Replay(cfg, response.keyTransitions, Chain(request.keysetSequence, m.ring)).value;
    IncrementalIsFull(cfg, m.state.keyTransitions, m.state.keysetSequence, m.ring,
                      response.keyTransitions, request.keysetSequence, chain, response.keysetSequence);
  }

  /** What accept commits to can be replayed and verified again. */
  lemma CommittedDerived(cfg: Config, m: Machine, after: Machine, response: Response, request: PreparedRequest,
                         raw: Raw, authorizing: bool, r: Reading)
    requires AfterProcess(cfg, m, after, response, request, raw) && Synchronized(cfg, m) && Derived(cfg, m.state)
    requires Restore(cfg, m.state.keyTransitions + response.keyTransitions, response.keysetSequence).Ok?
    ensures Derived(cfg, Committed(m.state, m.state.keyTransitions + response.keyTransitions, response, authorizing, r))
  {
    ProcessExtends(cfg, m.ring, raw, request);
    ProcessVerifies(cfg, m.ring, raw, request);
    RestoredIsReceived(cfg, m, after, response, request, raw);
    JudgedVerified(cfg, m.state.epoch, response, authorizing, m.ring, after.ring);
  }

  lemma AcceptInv(setup: Setup, m: Machine, after: Machine, response: Response, request: PreparedRequest, raw: Raw,
                  authorizing: bool, clock: Clock)
    requires Inv(setup, m) && AfterProcess(setup.cfg, m, after, response, request, raw)
    requires setup.cfg.persistent ==> Synchronized(setup.cfg, m)
    requires authorizing || m.state.epoch.lease.Some?
    ensures Inv(setup, Accept(setup, after, response, authorizing, clock).machine)
  {
    assert Inv(setup, after);
    ReceivedLease(setup.cfg, m, after, response, request, raw);
    if MovedBack(m.state, response, authorizing) {
    } else if Stale(response) {
      ReloadKeepsState(setup, after, clock(Anchoring));
    } else {
      var links := m.state.keyTransitions + response.keyTransitions;
      var restored := Restore(setup.cfg, links, response.keysetSequence);
      if restored.Ok? {
        var s := Committed(m.state, links, response, authorizing, clock(Anchoring));
        JudgedCoherent(m.state.epoch, response, authorizing);
        JudgedTokens(m.state.epoch, response, authorizing);
        if setup.cfg.persistent {
          CommittedDerived(setup.cfg, m, after, response, request, raw, authorizing, clock(Anchoring));
        }
        PersistInv(setup, after.(state := s, ring := restored.value), clock(SavingAccepted));
      }
    }
  }

  // ---- the operations ----

  lemma ScheduleRetryInv(setup: Setup, m: Machine, retryAfter: Option<nat>, jitter: nat, clock: Clock)
    requires Inv(setup, m)
    ensures Inv(setup, ScheduleRetry(setup, m, retryAfter, jitter, clock))
    ensures ScheduleRetry(setup, m, retryAfter, jitter, clock).state.epoch == m.state.epoch
  {
    var failures := Min(m.state.retryFailures + 1, 30);
    var now := clock(Retrying).wall;
    var s := m.state.(retryFailures := failures,
                      nextRetry := now + RetryDelay(m.state, failures, now, retryAfter, jitter));
    PersistInv(setup, m.(state := s), clock(SavingRetry));
  }

  lemma CaughtInv(setup: Setup, m: Machine, failure: Failure, ending: bool, w: World, posted: seq<PreparedRequest>,
                  heard: Option<Response>)
    requires Inv(setup, m)
    ensures Inv(setup, Caught(setup, m, failure, ending, w, posted, heard).machine)
    ensures Caught(setup, m, failure, ending, w, posted, heard).machine.state.epoch == m.state.epoch
  {
    ScheduleRetryInv(setup, m, None, w.jitter, w.clock);
  }

  lemma ConcludeInv(setup: Setup, m: Machine, response: Response, authorizing: bool, forgetMissingKey: bool, w: World)
    requires Inv(setup, m)
    ensures Inv(setup, Conclude(setup, m, response, authorizing, forgetMissingKey, w).0)
    ensures Conclude(setup, m, response, authorizing, forgetMissingKey, w).0.state.epoch == m.state.epoch
  {
    var forgotten := m.(state := m.state.(storedLicenseKey := None));
    PersistInv(setup, forgotten, w.clock(SavingLast));
    ScheduleRetryInv(setup, m, response.retryAfter, w.jitter, w.clock);
    ScheduleRetryInv(setup, Persist(setup, forgotten, w.clock(SavingLast)), response.retryAfter, w.jitter, w.clock);
  }

  lemma ExecuteInv(setup: Setup, m: Machine, prepared: Result<PreparedRequest>, authorizing: bool,
                   forgetMissingKey: bool, w: World)
    requires Inv(setup, m) && (setup.cfg.persistent ==> Synchronized(setup.cfg, m))
    requires authorizing || m.state.epoch.lease.Some?
    ensures Inv(setup, Execute(setup, m, prepared, authorizing, forgetMissingKey, w).machine)
  {
    if prepared.Ok? {
      var raw, posted := Final(setup.cfg, w.network), Postings(setup.cfg, prepared.value, w);
      match Process(setup.cfg, m.ring, raw, prepared.value)
      case Err(f) => CaughtInv(setup, m, f, false, w, posted, None);
      case Ok(p) =>
        var received := m.(ring := p.ring);
        var accepted := if Signed(p.response) then Accept(setup, received, p.response, authorizing, w.clock)
            else Outcome(received, None);
        AcceptInv(setup, m, received, p.response, prepared.value, raw, authorizing, w.clock);
        if accepted.failure.Some? {
          CaughtInv(setup, accepted.machine, accepted.failure.value, false, w, posted, Heard(p.response));
        } else {
          ConcludeInv(setup, accepted.machine, p.response, authorizing, forgetMissingKey, w);
        }
    }
  }

  /** Every end request that is prepared can be saved and loaded. */
  lemma PreparedEndRetryable(setup: Setup, reason: string, lease: string, s: State, ring: Ring, jti: string)
    requires Prepare(setup, "end", EndAsk(reason), None, Some(lease), s, ring, jti).Ok?
    ensures Retryable(Prepare(setup, "end", EndAsk(reason), None, Some(lease), s, ring, jti).value)
  {
    var p := Prepare(setup, "end", EndAsk(reason), None, Some(lease), s, ring, jti).value;
    assert |p.body| >= 2 && |p.proof| >= 1 && |p.url| >= 3;
  }

  lemma WithPendingEndInv(setup: Setup, m: Machine, reason: string, w: World)
    requires Inv(setup, m) && (setup.cfg.persistent ==> Synchronized(setup.cfg, m))
    ensures var b := WithPendingEnd(setup, m, reason, w).machine;
            Inv(setup, b) && (setup.cfg.persistent ==> Synchronized(setup.cfg, b)) && b.ring == m.ring
            && b.state.epoch.lease == m.state.epoch.lease && b.state.keyTransitions == m.state.keyTransitions
            && b.state.keysetSequence == m.state.keysetSequence
  {
    var e := m.state.epoch;
    if e.pendingEnd.None? && e.lease.Some? {
      var prepared := Prepare(setup, "end", EndAsk(reason), None, Some(e.lease.value.compact), m.state, m.ring, w.jti);
      if prepared.Ok? {
        PreparedEndRetryable(setup, reason, e.lease.value.compact, m.state, m.ring, w.jti);
        PersistInv(setup, m.(state := m.state.(epoch := e.(pendingEnd := Some(prepared.value), ending := true))),
                   w.clock(SavingFirst));
      }
    }
  }

  lemma FinishEndInv(setup: Setup, m: Machine, after: Machine, response: Response, request: PreparedRequest, w: World,
                     posted: seq<PreparedRequest>)
    requires Inv(setup, m) && AfterProcess(setup.cfg, m, after, response, request, Final(setup.cfg, w.network))
    requires (setup.cfg.persistent ==> Synchronized(setup.cfg, m)) && m.state.epoch.lease.Some?
    ensures Inv(setup, FinishEnd(setup, after, response, w, posted).machine)
  {
    assert Inv(setup, after);
    ScheduleRetryInv(setup, after, response.retryAfter, w.jitter, w.clock);
    AcceptInv(setup, m, after, response, request, Final(setup.cfg, w.network), false, w.clock);
    var accepted := Accept(setup, after, response, false, w.clock);
    var a := accepted.machine;
    if accepted.failure.Some? {
      CaughtInv(setup, a, accepted.failure.value, true, w, posted, Heard(response));
    } else if !a.state.epoch.revoked {
      var ended := a.state.epoch.(ending := false, ended := true, lease := None, leaseCompact := None,
                                  pendingEnd := None);
      PersistInv(setup, a.(state := a.state.(epoch := ended)), w.clock(SavingLast));
    }
  }

  lemma EndLockedInv(setup: Setup, m: Machine, reason: string, w: World)
    requires Inv(setup, m) && (setup.cfg.persistent ==> Synchronized(setup.cfg, m))
    ensures Inv(setup, EndLocked(setup, m, reason, w).machine)
  {
    if !(m.state.epoch.ended || (m.state.epoch.lease.None? && m.state.epoch.pendingEnd.None?)) {
      var begun := WithPendingEnd(setup, m, reason, w);
      WithPendingEndInv(setup, m, reason, w);
      if begun.failure.None? {
        var b, request := begun.machine, begun.machine.state.epoch.pendingEnd.value;
        var posted := Postings(setup.cfg, request, w);
        match Process(setup.cfg, b.ring, Final(setup.cfg, w.network), request)
        case Err(f) => CaughtInv(setup, b, f, true, w, posted, None);
        case Ok(p) => FinishEndInv(setup, b, b.(ring := p.ring), p.response, request, w, posted);
      }
    }
  }

  lemma NothingRestored(cfg: Config)
    ensures Restore(cfg, [], 0) == Ok(cfg.pinned)
  {
  }

  /** Opening the saved document brings back the saved state. */
  lemma OpenKeepsState(setup: Setup, m: Machine, r: Reading)
    requires Inv(setup, m) && setup.cfg.persistent
    ensures var o := Open(setup, m.store.value, setup.cfg.thumbprint, setup.cfg.keyReference, r);
            o.Ok? ==>
              o.value.0 == m.state
              && Restore(setup.cfg, m.state.keyTransitions, m.state.keysetSequence) == Ok(o.value.1)
  {
    ParseSaved(setup, m.state, r);
    var restored := Restore(setup.cfg, m.state.keyTransitions, m.state.keysetSequence);
    TokensOfSaved(setup.cfg, m.state.epoch, m.state.keysetSequence, restored.value);
  }

  /** A document that a session can start from: none, or one of version 3. */
  predicate Unstarted(store: Option<Document>) {
    store.None? || store.value.version == 3
  }

  /** A version 3 document opens to a blank state with the credential it held. */
  lemma OpenMigrates(setup: Setup, d: Document, r: Reading)
    requires d.version == 3
    ensures var o := Open(setup, d, setup.cfg.thumbprint, setup.cfg.keyReference, r);
            o.Ok? ==>
              && o.value == (NewState(setup.cfg, r).(storedLicenseKey := d.storedLicenseKey), setup.cfg.pinned)
              && KeepsRoots(d.keys, setup.cfg.pinned)
  {
    NothingRestored(setup.cfg);
  }

  /** A new session, with nothing saved before, with what an earlier one saved, or with a version 3 document. */
  lemma RestartedInv(setup: Setup, m: Machine, w: World)
    requires Inv(setup, m) || Unstarted(m.store)
    ensures var o := Restarted(setup, m, w);
            (o.failure.None? ==> Inv(setup, o.machine) && Synchronized(setup.cfg, o.machine))
            && (o.failure.Some? ==> o.machine == m)
            && (o.failure.None? && setup.cfg.persistent && !Unstarted(m.store)
                ==> o.machine.state.epoch == m.state.epoch)
  {
    NothingRestored(setup.cfg);
    var blank := Machine(NewState(setup.cfg, w.clock(Deciding)), setup.cfg.pinned, m.store, m.written);
    if setup.cfg.persistent {
      if m.store.None? {
        PersistInv(setup, blank, w.clock(SavingFirst));
      } else {
        var reopened := Open(setup, m.store.value, setup.cfg.thumbprint, setup.cfg.keyReference, w.clock(Loading));
        if m.store.value.version == 3 {
          OpenMigrates(setup, m.store.value, w.clock(Loading));
        } else {
          OpenKeepsState(setup, m, w.clock(Loading));
        }
        if reopened.Ok? {
          PersistInv(setup, Machine(reopened.value.0, reopened.value.1, m.store, m.written), w.clock(SavingFirst));
        }
      }
    }
  }

  /** Getting the state back keeps the invariant and synchronizes the ring of a persistent session. */
  lemma LoadedInv(setup: Setup, m: Machine, op: Operation, w: World)
    requires Inv(setup, m)
    ensures var o := Loaded(setup, m, op, w);
            Inv(setup, o.machine) && (setup.cfg.persistent && o.failure.None? ==> Synchronized(setup.cfg, o.machine))
  {
    if op.Restart? {
      RestartedInv(setup, m, w);
    } else {
      ReloadKeepsState(setup, m, w.clock(Loading));
    }
  }

  /** What is known of the machine a request is sent from. */
  lemma SenderInv(setup: Setup, m: Machine, op: Operation, w: World)
    requires Inv(setup, m) && (setup.cfg.persistent ==> Synchronized(setup.cfg, m))
    requires Sender(setup, m, op, w).Some?
    ensures var n := Sender(setup, m, op, w).value;
            && Inv(setup, n) && (setup.cfg.persistent ==> Synchronized(setup.cfg, n))
            && n.ring == m.ring && n.state.epoch == m.state.epoch && n.state.keysetSequence == m.state.keysetSequence
            && (Authorizes(op) || n.state.epoch.lease.Some?) && !op.End?
  {
    if op.AuthorizeWithKey? {
      PersistInv(setup, m.(state := m.state.(storedLicenseKey := Some(op.key))), w.clock(SavingFirst));
    }
  }

  lemma PerformInv(setup: Setup, m: Machine, op: Operation, w: World)
    requires Inv(setup, m) && (setup.cfg.persistent ==> Synchronized(setup.cfg, m))
    ensures Inv(setup, Perform(setup, m, op, w).machine)
  {
    if op.End? {
      EndLockedInv(setup, m, op.reason, w);
    } else if Sender(setup, m, op, w).Some? {
      var n := Sender(setup, m, op, w).value;
      SenderInv(setup, m, op, w);
      ExecuteInv(setup, n, RequestOf(setup, n, op, w.jti), Authorizes(op), Forgets(op), w);
    }
  }

  /** Every operation keeps the invariant, whatever the server answers and the clock shows. */
  lemma OperateInv(setup: Setup, m: Machine, op: Operation, w: World)
    requires Inv(setup, m)
    ensures Inv(setup, Operate(setup, m, op, w).machine)
  {
    LoadedInv(setup, m, op, w);
    var o := Loaded(setup, m, op, w);
    if o.failure.None? {
      PerformInv(setup, o.machine, op, w);
    }
  }

  // ---- interrupted operations ----

  /** The state an operation of a persistent session starts from. */
  lemma LoadedState(setup: Setup, m: Machine, op: Operation, w: World)
    requires Inv(setup, m) && setup.cfg.persistent && Loaded(setup, m, op, w).failure.None? && !op.Restart?
    ensures var o := Loaded(setup, m, op, w).machine;
            Inv(setup, o) && Synchronized(setup.cfg, o) && o.state == m.state && o.store == m.store
  {
    ReloadKeepsState(setup, m, w.clock(Loading));
    LoadedInv(setup, m, op, w);
  }

  /** What is known of the machine a request is sent from, and of the request's answer. */
  lemma SendingInv(setup: Setup, m: Machine, op: Operation, w: World)
    requires Inv(setup, m) && (setup.cfg.persistent ==> Synchronized(setup.cfg, m)) && Sending(setup, m, op, w).Some?
    ensures var n := Sending(setup, m, op, w).value.0;
            && Inv(setup, n) && (setup.cfg.persistent ==> Synchronized(setup.cfg, n))
            && (Authorizes(op) || n.state.epoch.lease.Some?) && n.ring == m.ring
            && n.state.keyTransitions == m.state.keyTransitions && n.state.keysetSequence == m.state.keysetSequence
            && n.state.epoch.lease == m.state.epoch.lease
    ensures Early(setup, m, op, w, Sending(setup, m, op, w).value.0)
  {
    if op.End? {
      WithPendingEndInv(setup, m, op.reason, w);
    } else {
      SenderInv(setup, m, op, w);
    }
  }

  lemma EarlyInv(setup: Setup, m: Machine, op: Operation, w: World, c: Machine)
    requires Inv(setup, m) && (setup.cfg.persistent ==> Synchronized(setup.cfg, m)) && Early(setup, m, op, w, c)
    ensures Inv(setup, c)
  {
    if op.End? {
      WithPendingEndInv(setup, m, op.reason, w);
    } else {
      SenderInv(setup, m, op, w);
    }
  }

  lemma TakenInv(setup: Setup, m: Machine, op: Operation, w: World)
    requires Inv(setup, m) && (setup.cfg.persistent ==> Synchronized(setup.cfg, m)) && Taken(setup, m, op, w).Some?
    ensures Inv(setup, Taken(setup, m, op, w).value.machine)
  {
    SendingInv(setup, m, op, w);
    var (n, request) := Sending(setup, m, op, w).value;
    var (received, response) := Answered(setup, m, op, w).value;
    AcceptInv(setup, n, received, response, request, Final(setup.cfg, w.network), Authorizes(op), w.clock);
  }

  lemma LateInv(setup: Setup, m: Machine, op: Operation, w: World, c: Machine)
    requires Inv(setup, m) && (setup.cfg.persistent ==> Synchronized(setup.cfg, m)) && Late(setup, m, op, w, c)
    ensures Inv(setup, c) && c.state.epoch == Taken(setup, m, op, w).value.machine.state.epoch
  {
    TakenInv(setup, m, op, w);
    var o := Taken(setup, m, op, w).value;
    PersistInv(setup, o.machine.(state := o.machine.state.(storedLicenseKey := None)), w.clock(SavingLast));
  }

  /** An operation that is interrupted keeps the invariant, wherever it stops. */
  lemma InterruptedInv(setup: Setup, m: Machine, op: Operation, w: World, a: Answer)
    requires Inv(setup, m) && setup.cfg.persistent && Interrupted(setup, m, op, w, a)
    ensures Inv(setup, a.machine)
  {
    if a.machine != m {
      LoadedState(setup, m, op, w);
      var loaded := Loaded(setup, m, op, w).machine;
      if Early(setup, loaded, op, w, a.machine) {
        EarlyInv(setup, loaded, op, w, a.machine);
      } else {
        LateInv(setup, loaded, op, w, a.machine);
      }
    }
  }

  // ---- runs ----

  datatype Step = Step(op: Operation, world: World)

  /** The machine before step i of a run from m. */
  function Before(m: Machine, answers: seq<Answer>, i: nat): Machine
    requires i <= |answers|
  {
    if i == 0 then m else answers[i - 1].machine
  }

  /**
   * Each answer fits the machine the one before left; which answers fit is left open, so that proofs about runs stay
   * small.
   */
  ghost predicate Linked(fits: (Machine, Step, Answer) -> bool, m: Machine, steps: seq<Step>, answers: seq<Answer>) {
    && |answers| == |steps|
    && forall i {:trigger fits(Before(m, answers, i), steps[i], answers[i])} | 0 <= i < |steps| ::
         fits(Before(m, answers, i), steps[i], answers[i])
  }

  /** A run can be continued by any answer that fits. */
  lemma LinkedLonger(fits: (Machine, Step, Answer) -> bool, m: Machine, steps: seq<Step>, answers: seq<Answer>,
                     step: Step, a: Answer)
    requires Linked(fits, m, steps, answers) && fits(Before(m, answers, |answers|), step, a)
    ensures Linked(fits, m, steps + [step], answers + [a])
  {
    forall i | 0 <= i < |steps + [step]|
      ensures fits(Before(m, answers + [a], i), (steps + [step])[i], (answers + [a])[i])
    {
      assert Before(m, answers + [a], i) == Before(m, answers, i);
    }
  }

  /** Whether an operation answers this way, or is interrupted this way. A memory session that stops is a restart. */
  ghost function Performs(setup: Setup): (Machine, Step, Answer) -> bool {
    (m: Machine, step: Step, a: Answer) =>
      || a == Operate(setup, m, step.op, step.world)
      || (setup.cfg.persistent && Interrupted(setup, m, step.op, step.world, a))
  }

  lemma PerformsIs(setup: Setup, m: Machine, step: Step, a: Answer)
    ensures Performs(setup)(m, step, a)
            <==> (a == Operate(setup, m, step.op, step.world)
                  || (setup.cfg.persistent && Interrupted(setup, m, step.op, step.world, a)))
  {
  }

  /**
   * The answers of the operations, each one starting from the machine the one before left. Any operation of a
   * persistent session can be interrupted; what comes next starts from the store.
   */
  ghost predicate Run(setup: Setup, m: Machine, steps: seq<Step>, answers: seq<Answer>) {
    Linked(Performs(setup), m, steps, answers)
  }

  /** How a session starts on what is in the store. */
  function Opening(setup: Setup, saved: Option<Document>, w: World): Outcome {
    Restarted(setup, Machine(NewState(setup.cfg, w.clock(Deciding)), setup.cfg.pinned, saved, []), w)
  }

  /** A session's first machine. */
  function Start(setup: Setup, saved: Option<Document>, w: World): Machine {
    Opening(setup, saved, w).machine
  }

  /** The session starts anew, with nothing saved or with a version 3 document. */
  predicate Starts(setup: Setup, saved: Option<Document>, w: World) {
    Unstarted(saved) && Opening(setup, saved, w).failure.None?
  }

  lemma InvStep(setup: Setup, m: Machine, steps: seq<Step>, answers: seq<Answer>, k: nat)
    requires Run(setup, m, steps, answers) && k < |steps| && Inv(setup, Before(m, answers, k))
    ensures Inv(setup, Before(m, answers, k + 1))
  {
    var n, step := Before(m, answers, k), steps[k];
    PerformsIs(setup, n, step, answers[k]);
    if answers[k] == Operate(setup, n, step.op, step.world) {
      OperateInv(setup, n, step.op, step.world);
    } else {
      InterruptedInv(setup, n, step.op, step.world, answers[k]);
    }
  }

  /** What holds at the start and is kept by every step holds up to step i. */
  lemma {:induction false} UpTo(p: nat -> bool, i: nat)
    requires p(0) && forall k: nat | k < i :: p(k) ==> p(k + 1)
    ensures p(i)
  {
    if i > 0 {
      UpTo(p, i - 1);
      assert p(i - 1) ==> p(i - 1 + 1);
    }
  }

  lemma RunInv(setup: Setup, m: Machine, steps: seq<Step>, answers: seq<Answer>, i: nat)
    requires Inv(setup, m) && Run(setup, m, steps, answers) && i <= |steps|
    ensures Inv(setup, Before(m, answers, i))
  {
    var p := (k: nat) => k <= |answers| && Inv(setup, Before(m, answers, k));
    forall k: nat | k < i && p(k)
      ensures p(k + 1)
    {
      InvStep(setup, m, steps, answers, k);
    }
    UpTo(p, i);
  }

  /** The invariant holds from the start and after every operation of every run. */
  lemma EveryRun(setup: Setup, saved: Option<Document>, first: World, steps: seq<Step>, answers: seq<Answer>, i: nat)
    requires Starts(setup, saved, first) && Run(setup, Start(setup, saved, first), steps, answers) && i <= |steps|
    ensures Inv(setup, Before(Start(setup, saved, first), answers, i))
    ensures Coherent(Before(Start(setup, saved, first), answers, i).state.epoch)
  {
    StartInv(setup, saved, first);
    RunInv(setup, Start(setup, saved, first), steps, answers, i);
  }

  lemma StartInv(setup: Setup, saved: Option<Document>, first: World)
    requires Starts(setup, saved, first)
    ensures Inv(setup, Start(setup, saved, first))
  {
    RestartedInv(setup, Machine(NewState(setup.cfg, first.clock(Deciding)), setup.cfg.pinned, saved, []), first);
  }
}
