/** The session object: its methods update the state, the client's ring and the store in place. */
module Authorization {
  import opened Outcomes
  import opened Tokens
  import opened Exchange
  import opened Persistence
  import opened Session

  class AuthorizationSession {
    const setup: Setup
    const client: Client
    var state: State
    var store: Option<Document>
    /** Every document saved by this session, in order. */
    ghost var written: seq<Document>

    ghost predicate Valid()
      reads this
    {
      client.cfg == setup.cfg
    }

    /** The parts that change. */
    ghost function View(): Machine
      reads this, client
    {
      Machine(state, client.keys, store, written)
    }

    /** A session that has loaded nothing yet. */
    constructor (s: Setup, saved: Option<Document>, r: Reading)
      ensures Valid() && setup == s && fresh(client)
      ensures View() == Machine(NewState(s.cfg, r), s.cfg.pinned, saved, [])
    {
      setup := s;
      client := new Client(s.cfg);
      state := NewState(s.cfg, r);
      store := saved;
      written := [];
    }

    // ---- saving and loading ----

    method Persist(r: Reading)
      requires Valid()
      modifies this
      ensures View() == Session.Persist(setup, old(View()), r)
    {
      if !setup.cfg.persistent {
        return;
      }
      state := state.(time := state.time.(lastKnownGood := Max(state.time.lastKnownGood, EffectiveNow(state.time, r))));
      state := state.(stateSignature := Some(setup.sign(Serialize(setup.cfg, state, false))));
      state := state.(allowsUnsigned := false);
      store := Some(Serialize(setup.cfg, state, true));
      written := written + [store.value];
    }

    method Reload(r: Reading) returns (failure: Option<Failure>)
      requires Valid()
      modifies this, client
      ensures Outcome(View(), failure) == Session.Reload(setup, old(View()), r)
    {
      if !setup.cfg.persistent {
        return None;
      }
      if store.None? {
        return Some(InvalidState);
      }
      var loaded := Authentic(setup, store.value, state.thumbprint, state.keyReference, r);
      if loaded.Err? {
        return Some(loaded.failure);
      }
      var previousTransitions, previousSequence := state.keyTransitions, state.keysetSequence;
      failure := client.RestoreTransitions(loaded.value.keyTransitions, loaded.value.keysetSequence);
      if failure.None? {
        var verified := VerifyTokens(setup.cfg, loaded.value.epoch, loaded.value.keysetSequence, client.keys);
        match verified {
          case Ok(v) =>
            state := WithTokens(loaded.value, v);
            return None;
          case Err(f) =>
            failure := Some(f);
        }
      }
      var again := client.RestoreTransitions(previousTransitions, previousSequence);
      if again.Some? {
        failure := again;
      }
    }

    // ---- responses ----

    /** state.revoked, or state.ended: the lease and everything that belongs to it goes. */
    method Terminate(revoked: bool)
      modifies this`state
      ensures state == old(state).(epoch := Terminated(old(state).epoch, revoked))
    {
      state := state.(epoch := state.epoch.(revoked := revoked, ended := !revoked));
      state := state.(epoch := state.epoch.(lease := None, leaseCompact := None));
      state := state.(epoch := state.epoch.(pendingEnd := None, ending := false));
    }

    method ApplyStatus(status: Status)
      modifies this`state
      ensures state == old(state).(epoch := AfterStatus(old(state).epoch, status))
    {
      if state.epoch.lease.None? {
        return;
      }
      var lease := state.epoch.lease.value;
      if status.deviceRevoked || status.grant.GrantRevoked? || status.minimumGeneration > lease.generation
         || lease.signingKeyId in status.revokedKids {
        Terminate(true);
      } else if status.grant.GrantEnded? {
        Terminate(false);
      } else if status.grant.GrantReclaimPending? {
        state := state.(epoch := state.epoch.(serverExpired := true));
      }
    }

    method ApplyDecision(decision: Decision)
      modifies this`state
      ensures state == old(state).(epoch := AfterDecision(old(state).epoch, decision))
    {
      match decision.disposition {
        case Revoked => Terminate(true);
        case Ended => Terminate(false);
        case Expired => state := state.(epoch := state.epoch.(serverExpired := true));
        case Unchanged =>
      }
    }

    method TakeLease(lease: Lease, authorizing: bool)
      modifies this`state
      ensures state == old(state).(epoch := AfterLease(old(state).epoch, lease, authorizing))
    {
      if authorizing {
        state := state.(epoch := state.epoch.(ending := false, ended := false, revoked := false, pendingEnd := None));
        state := state.(epoch := state.epoch.(status := None, statusCompact := None, minimumGeneration := 0));
        state := state.(epoch := state.epoch.(highestGeneration := lease.generation,
                                              authorizationId := lease.authorizationId));
      }
      state := state.(epoch := state.epoch.(lease := Some(lease), leaseCompact := Some(lease.compact)));
      state := state.(epoch := state.epoch.(highestGeneration := Max(state.epoch.highestGeneration, lease.generation)));
      state := state.(epoch := state.epoch.(serverExpired := false));
    }

    method TakeStatus(status: Status)
      modifies this`state
      ensures state == old(state).(epoch := AfterStatus(
                old(state).epoch.(status := Some(status), statusCompact := Some(status.compact),
                                  statusSequence := status.sequence, minimumGeneration := status.minimumGeneration),
                                      status))
    {
      state := state.(epoch := state.epoch.(status := Some(status), statusCompact := Some(status.compact)));
      state := state.(epoch := state.epoch.(statusSequence := status.sequence,
                                            minimumGeneration := status.minimumGeneration));
      ApplyStatus(status);
    }

    /** The part of accept after the chain was rebuilt. */
    method Commit(response: Response, authorizing: bool, r: Reading)
      modifies this`state
      ensures state == Committed(old(state), old(state).keyTransitions, response, authorizing, r)
    {
      state := state.(keysetSequence := response.keysetSequence);
      if response.lease.Some? {
        TakeLease(response.lease.value, authorizing);
      }
      if response.status.Some? {
        TakeStatus(response.status.value);
      }
      if response.decision.Some? {
        ApplyDecision(response.decision.value);
      }
      var serverTime := ServerTime(response);
      if serverTime.Some? {
        state := state.(time := state.time.(clockUntrusted := false, serverAnchor := serverTime.value));
        state := state.(time := state.time.(anchorMonotonic := r.monotonic, bootIdentifier := r.boot,
                                            wallAtAnchor := r.wall));
        state := state.(time := state.time.(lastKnownGood := serverTime.value));
      }
      state := state.(retryFailures := 0, nextRetry := 0);
    }

    method Accept(response: Response, authorizing: bool, clock: Clock) returns (failure: Option<Failure>)
      requires Valid()
      modifies this, client
      ensures Outcome(View(), failure) == Session.Accept(setup, old(View()), response, authorizing, clock)
    {
      if response.keysetSequence < state.keysetSequence
         || (response.status.Some? && response.status.value.sequence < state.epoch.statusSequence) {
        return Some(InvalidState);
      }
      if !authorizing && response.lease.Some? && response.lease.value.generation < state.epoch.highestGeneration {
        return Some(InvalidState);
      }
      if response.decision.Some? && response.decision.value.responseCode == "STALE_GENERATION" {
        failure := Reload(clock(Anchoring));
        return;
      }
      var acceptedTransitions := state.keyTransitions + response.keyTransitions;
      failure := client.RestoreTransitions(acceptedTransitions, response.keysetSequence);
      if failure.Some? {
        var again := client.RestoreTransitions(state.keyTransitions, state.keysetSequence);
        return;
      }
      state := state.(keyTransitions := acceptedTransitions);
      Commit(response, authorizing, clock(Anchoring));
      Persist(clock(SavingAccepted));
    }

    // ---- retrying later ----

    method ScheduleRetry(retryAfter: Option<nat>, jitter: nat, clock: Clock)
      requires Valid()
      modifies this
      ensures View() == Session.ScheduleRetry(setup, old(View()), retryAfter, jitter, clock)
    {
      state := state.(retryFailures := Min(state.retryFailures + 1, 30));
      var now := clock(Retrying).wall;
      var delay := RetryDelay(state, state.retryFailures, now, retryAfter, jitter);
      state := state.(nextRetry := now + delay);
      assert delay == RetryDelay(old(state), state.retryFailures, now, retryAfter, jitter);
      assert View() == old(View()).(state := state);
      Persist(clock(SavingRetry));
    }

    /** The handler of a thrown error. */
    method Catch(failure: Failure, ending: bool, w: World) returns (result: Result<Snapshot>)
      requires Valid()
      modifies this
      ensures forall posted, heard ::
                Answer(View(), result, posted, heard) == Caught(setup, old(View()), failure, ending, w, posted, heard)
    {
      if failure != Transport {
        return Err(failure);
      }
      ScheduleRetry(None, w.jitter, w.clock);
      return Ok(Waiting(setup.cfg, state, ending, w.clock(Answering)));
    }

    // ---- requests ----

    method Execute(prepared: Result<PreparedRequest>, authorizing: bool, forgetMissingKey: bool, w: World)
      returns (result: Result<Snapshot>, posted: seq<PreparedRequest>, ghost heard: Option<Response>)
      requires Valid()
      modifies this, client
      ensures Answer(View(), result, posted, heard)
              == Session.Execute(setup, old(View()), prepared, authorizing, forgetMissingKey, w)
    {
      heard := None;
      if prepared.Err? {
        return Err(prepared.failure), [], None;
      }
      var received;
      received, posted := client.Send(prepared.value, w.network);
      if received.Err? {
        result := Catch(received.failure, false, w);
        return;
      }
      var response := received.value;
      heard := Heard(response);
      if Signed(response) {
        var failure := Accept(response, authorizing, w.clock);
        if failure.Some? {
          result := Catch(failure.value, false, w);
          return;
        }
      }
      var snapshot := Conclude(response, authorizing, forgetMissingKey, w);
      result := Ok(snapshot);
    }

    method Conclude(response: Response, authorizing: bool, forgetMissingKey: bool, w: World)
      returns (snapshot: Snapshot)
      requires Valid()
      modifies this
      ensures (View(), snapshot) == Session.Conclude(setup, old(View()), response, authorizing, forgetMissingKey, w)
    {
      var missing := forgetMissingKey && response.decision.Some?
          && response.decision.value.responseCode == "KEY_NOT_FOUND";
      if missing {
        state := state.(storedLicenseKey := None);
        Persist(w.clock(SavingLast));
      }
      if Overloaded(response) {
        ScheduleRetry(response.retryAfter, w.jitter, w.clock);
        return Waiting(setup.cfg, state, false, w.clock(Answering));
      }
      if missing {
        return Snapshot(AuthDenied, None);
      }
      if !Success(response.httpStatus) && response.decision.None? {
        return Snapshot(ProtocolFailure, None);
      }
      return ResponseSnapshot(setup.cfg, state, response, authorizing, w.clock(Answering));
    }

    // ---- ending ----

    method BeginEnd(reason: string, w: World) returns (failure: Option<Failure>)
      requires Valid()
      modifies this
      ensures Outcome(View(), failure) == WithPendingEnd(setup, old(View()), reason, w)
    {
      if state.epoch.pendingEnd.Some? || state.epoch.lease.None? {
        return None;
      }
      var prepared := Prepare(setup, "end", EndAsk(reason), None, Some(state.epoch.lease.value.compact), state,
                              client.keys, w.jti);
      if prepared.Err? {
        return Some(prepared.failure);
      }
      state := state.(epoch := state.epoch.(pendingEnd := Some(prepared.value), ending := true));
      Persist(w.clock(SavingFirst));
      return None;
    }

    method EndLocked(reason: string, w: World)
      returns (result: Result<Snapshot>, posted: seq<PreparedRequest>, ghost heard: Option<Response>)
      requires Valid()
      modifies this, client
      ensures Answer(View(), result, posted, heard) == Session.EndLocked(setup, old(View()), reason, w)
    {
      posted, heard := [], None;
      if state.epoch.ended || (state.epoch.lease.None? && state.epoch.pendingEnd.None?) {
        return Ok(SnapshotOf(setup.cfg, state, false, w.clock(Answering))), [], None;
      }
      var begun := BeginEnd(reason, w);
      if begun.Some? {
        return Err(begun.value), [], None;
      }
      var received;
      received, posted := client.Send(state.epoch.pendingEnd.value, w.network);
      if received.Err? {
        result := Catch(received.failure, true, w);
        return;
      }
      result, heard := FinishEnd(received.value, w, posted);
    }

    method FinishEnd(response: Response, w: World, ghost posted: seq<PreparedRequest>)
      returns (result: Result<Snapshot>, ghost heard: Option<Response>)
      requires Valid()
      modifies this, client
      ensures Answer(View(), result, posted, heard) == Session.FinishEnd(setup, old(View()), response, w, posted)
    {
      if Overloaded(response) {
        ScheduleRetry(response.retryAfter, w.jitter, w.clock);
        return Ok(Snapshot(IsEnding, None)), None;
      }
      heard := Heard(response);
      var failure := Accept(response, false, w.clock);
      if failure.Some? {
        result := Catch(failure.value, true, w);
        return;
      }
      if state.epoch.revoked {
        result := Ok(SnapshotOf(setup.cfg, state, false, w.clock(Answering)));
        return;
      }
      if !AcknowledgesEnd(response) {
        result := Err(InvalidState);
        return;
      }
      state := state.(epoch := state.epoch.(ending := false, ended := true));
      state := state.(epoch := state.epoch.(lease := None, leaseCompact := None, pendingEnd := None));
      Persist(w.clock(SavingLast));
      result := Ok(Snapshot(IsEnded, None));
    }

    // ---- the public operations ----

    method Load(w: World) returns (result: Result<Snapshot>)
      requires Valid()
      modifies this, client
      ensures Answer(View(), result, [], None) == Operate(setup, old(View()), Operation.Load, w)
    {
      var failure := Reload(w.clock(Loading));
      if failure.Some? {
        return Err(failure.value);
      }
      return Ok(SnapshotOf(setup.cfg, state, false, w.clock(Answering)));
    }

    method AuthorizeWithKey(key: string, ask: Ask, w: World)
      returns (result: Result<Snapshot>, posted: seq<PreparedRequest>, ghost heard: Option<Response>)
      requires Valid()
      modifies this, client
      ensures Answer(View(), result, posted, heard)
              == Operate(setup, old(View()), Operation.AuthorizeWithKey(key, ask), w)
    {
      var failure := Reload(w.clock(Loading));
      if failure.Some? {
        return Err(failure.value), [], None;
      }
      if key == "" || |key| > 160 {
        return Err(Configuration), [], None;
      }
      state := state.(storedLicenseKey := Some(key));
      Persist(w.clock(SavingFirst));
      var prepared := Prepare(setup, "authorize", ask, Some(key), None, state, client.keys, w.jti);
      result, posted, heard := Execute(prepared, true, true, w);
    }

    method AuthorizeWithStoredKey(ask: Ask, w: World)
      returns (result: Result<Snapshot>, posted: seq<PreparedRequest>, ghost heard: Option<Response>)
      requires Valid()
      modifies this, client
      ensures Answer(View(), result, posted, heard)
              == Operate(setup, old(View()), Operation.AuthorizeWithStoredKey(ask), w)
    {
      var failure := Reload(w.clock(Loading));
      if failure.Some? {
        return Err(failure.value), [], None;
      }
      if state.storedLicenseKey.None? {
        return Ok(Snapshot(AuthDenied, None)), [], None;
      }
      var prepared := Prepare(setup, "authorize", ask, state.storedLicenseKey, None, state, client.keys, w.jti);
      result, posted, heard := Execute(prepared, true, true, w);
    }

    method AuthorizeWithAccount(ask: Ask, w: World)
      returns (result: Result<Snapshot>, posted: seq<PreparedRequest>, ghost heard: Option<Response>)
      requires Valid()
      modifies this, client
      ensures Answer(View(), result, posted, heard)
              == Operate(setup, old(View()), Operation.AuthorizeWithAccount(ask), w)
    {
      var failure := Reload(w.clock(Loading));
      if failure.Some? {
        return Err(failure.value), [], None;
      }
      var prepared := Prepare(setup, "authorize", ask, None, None, state, client.keys, w.jti);
      result, posted, heard := Execute(prepared, true, false, w);
    }

    method RenewIfDue(ask: Ask, w: World)
      returns (result: Result<Snapshot>, posted: seq<PreparedRequest>, ghost heard: Option<Response>)
      requires Valid()
      modifies this, client
      ensures Answer(View(), result, posted, heard) == Operate(setup, old(View()), Operation.RenewIfDue(ask), w)
    {
      var failure := Reload(w.clock(Loading));
      if failure.Some? {
        return Err(failure.value), [], None;
      }
      var local := SnapshotOf(setup.cfg, state, false, w.clock(Deciding));
      if state.epoch.lease.None? || local.standing != RenewalDue || state.nextRetry > w.clock(Deciding).wall {
        return Ok(local), [], None;
      }
      var prepared := Prepare(setup, "renew", ask, None, Some(state.epoch.lease.value.compact), state, client.keys,
                              w.jti);
      result, posted, heard := Execute(prepared, false, false, w);
    }

    method SynchronizeStatus(w: World)
      returns (result: Result<Snapshot>, posted: seq<PreparedRequest>, ghost heard: Option<Response>)
      requires Valid()
      modifies this, client
      ensures Answer(View(), result, posted, heard) == Operate(setup, old(View()), Operation.SynchronizeStatus, w)
    {
      var failure := Reload(w.clock(Loading));
      if failure.Some? {
        return Err(failure.value), [], None;
      }
      if state.epoch.lease.None? {
        return Ok(SnapshotOf(setup.cfg, state, false, w.clock(Answering))), [], None;
      }
      var prepared := Prepare(setup, "status", Ask("", None, true), None, Some(state.epoch.lease.value.compact), state,
                              client.keys, w.jti);
      result, posted, heard := Execute(prepared, false, false, w);
    }

    method End(reason: string, w: World)
      returns (result: Result<Snapshot>, posted: seq<PreparedRequest>, ghost heard: Option<Response>)
      requires Valid()
      modifies this, client
      ensures Answer(View(), result, posted, heard) == Operate(setup, old(View()), Operation.End(reason), w)
    {
      var failure := Reload(w.clock(Loading));
      if failure.Some? {
        return Err(failure.value), [], None;
      }
      result, posted, heard := EndLocked(reason, w);
    }

    /** Renewal, and the end of an expired memory-only session, with the requests of both. */
    method Tick(ask: Ask, w: World, later: World)
      returns (result: Result<Snapshot>, posted: seq<PreparedRequest>, ghost heard: Option<Response>)
      requires Valid()
      modifies this, client
      ensures var renewed := Operate(setup, old(View()), Operation.RenewIfDue(ask), w);
              var expired := !setup.cfg.persistent && renewed.result.Ok? && renewed.result.value.standing == IsExpired;
              var ended := Operate(setup, renewed.machine, Operation.End("lease_expired"), later);
              Answer(View(), result, posted, heard)
              == if expired then ended.(posted := renewed.posted + ended.posted) else renewed
    {
      result, posted, heard := RenewIfDue(ask, w);
      if !setup.cfg.persistent && result.Ok? && result.value.standing == IsExpired {
        var last;
        result, last, heard := End("lease_expired", later);
        posted := posted + last;
      }
    }
  }

  /** A new session on what was saved before, as AuthorizationSession::persistent and ::memory make it. */
  method OpenSession(setup: Setup, saved: Option<Document>, w: World)
    returns (session: AuthorizationSession, failure: Option<Failure>)
    ensures session.Valid() && session.setup == setup && fresh(session) && fresh(session.client)
    ensures var o := Restarted(setup, Machine(NewState(setup.cfg, w.clock(Deciding)), setup.cfg.pinned, saved, []), w);
            failure == o.failure && (failure.None? ==> session.View() == o.machine)
  {
    session := new AuthorizationSession(setup, saved, w.clock(Deciding));
    failure := None;
    if !setup.cfg.persistent {
      return;
    }
    if saved.Some? {
      failure := session.Reload(w.clock(Loading));
    }
    if failure.None? {
      session.Persist(w.clock(SavingFirst));
    }
  }
}
