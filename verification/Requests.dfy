/** When an operation sends a request, which one, and when it is tried again. */
module Requests {
  import opened Outcomes
  import opened Exchange
  import opened Persistence
  import opened Session
  import opened Crashes
  import opened Documents

  // ---- one request ----

  /** The request to an endpoint with this content, bound to the identifier and signed by the installation key. */
  ghost predicate Carries(setup: Setup, q: PreparedRequest, content: Content, jti: string) {
    && q.endpoint == content.endpoint && q.url == setup.cfg.origin + "/api/nightflyer/v1/" + content.endpoint
    && q.requestJti == jti && q.presentedLease == content.lease && q.expectedHwid == content.hwid
    && q.keysetSequence == content.keysetSequence && q.statusSequence == content.statusSequence
    && q.body == "{" + setup.render(content) + "}"
    && q.proof == setup.proof(content, jti).0 + "." + setup.proof(content, jti).1
  }

  /** What a machine says of itself in a request. */
  function Saying(m: Machine, endpoint: string, ask: Ask, credential: Option<string>, lease: Option<string>): Content {
    Content(endpoint, credential, lease, ask.hwid, ask.fields, m.ring.Keys, m.state.keysetSequence,
            m.state.epoch.statusSequence)
  }

  /** The texts and sequences are within the limits of a request. */
  predicate Sendable(ask: Ask, content: Content) {
    && ask.fits && 0 <= content.keysetSequence <= 0x1f_ffff_ffff_ffff
    && 0 <= content.statusSequence <= 0x1f_ffff_ffff_ffff
    && (content.credential.Some? ==> 1 <= |content.credential.value| <= 160)
    && (content.lease.Some? ==> 1 <= |content.lease.value| <= 0x8000)
  }

  /** A request can be made exactly within the limits, and carries what is said. */
  lemma PrepareMeans(setup: Setup, m: Machine, endpoint: string, ask: Ask, credential: Option<string>,
                     lease: Option<string>, jti: string, q: PreparedRequest)
    ensures var r := Prepare(setup, endpoint, ask, credential, lease, m.state, m.ring, jti);
            var content := Saying(m, endpoint, ask, credential, lease);
            && (r == Ok(q) <==> Sendable(ask, content) && Carries(setup, q, content, jti))
            && (Sendable(ask, content) <==> r.Ok?) && (r.Err? ==> r == Err(Configuration))
  {
  }

  // ---- what an operation sends ----

  /** The request, posted until the transport answers or the retries are used up. */
  ghost predicate Again(setup: Setup, w: World, posted: seq<PreparedRequest>, q: PreparedRequest) {
    && 1 <= |posted| <= setup.cfg.retries + 1 && (forall p | p in posted :: p == q)
    && (forall k | 0 <= k < |posted| - 1 :: w.network(k).TransportError?)
    && (|posted| <= setup.cfg.retries ==> !w.network(|posted| - 1).TransportError?)
  }

  /** From n the operation sends this content, or cannot, and then it changes nothing. */
  ghost predicate Sends(setup: Setup, n: Machine, w: World, ask: Ask, content: Content, a: Answer) {
    if Sendable(ask, content) then exists q :: Carries(setup, q, content, w.jti) && Again(setup, w, a.posted, q)
    else a == Answer(n, Err(Configuration), [], None)
  }

  /** The operation answers from what it knows: nothing is sent, saved or changed. */
  predicate Locally(n: Machine, a: Answer, result: Result<Snapshot>) {
    a == Answer(n, result, [], None)
  }

  lemma SendsFrom(setup: Setup, m: Machine, op: Operation, w: World, n: Machine, ask: Ask, content: Content)
    requires !op.End? && Sender(setup, m, op, w) == Some(n)
    requires content == Saying(n, content.endpoint, ask, content.credential, content.lease)
    requires RequestOf(setup, n, op, w.jti)
             == Prepare(setup, content.endpoint, ask, content.credential, content.lease, n.state, n.ring, w.jti)
    ensures Sends(setup, n, w, ask, content, Perform(setup, m, op, w))
  {
    var request := RequestOf(setup, n, op, w.jti);
    PerformSends(setup, m, op, w);
    if request.Ok? {
      PrepareMeans(setup, n, content.endpoint, ask, content.credential, content.lease, w.jti, request.value);
      PostedIs(setup, m, op, w);
      AttemptsMean(setup.cfg, w.network);
    } else {
      var q := PreparedRequest("", "", "", "", "", None, None, 0, 0);
      PrepareMeans(setup, n, content.endpoint, ask, content.credential, content.lease, w.jti, q);
    }
  }

  /** The operation got the state back, and goes on from n. */
  ghost predicate Ready(setup: Setup, m: Machine, op: Operation, w: World, n: Machine) {
    Loaded(setup, m, op, w) == Outcome(n, None)
  }

  /**
   * A renewal is sent exactly when a lease is usable when the operation decides, is due by then, and no retry is
   * scheduled for later; it presents the lease. Otherwise the operation answers locally.
   */
  lemma RenewalMeans(setup: Setup, m: Machine, ask: Ask, w: World, n: Machine)
    requires Ready(setup, m, RenewIfDue(ask), w, n)
    ensures var a, s, r := Operate(setup, m, RenewIfDue(ask), w), n.state, w.clock(Deciding);
            if && UsableLease(setup.cfg, s, r).Some? && EffectiveNow(s.time, r) >= s.epoch.lease.value.renewAfter
               && s.nextRetry <= r.wall
            then Sends(setup, n, w, ask, Saying(n, "renew", ask, None, Some(s.epoch.lease.value.compact)), a)
            else Locally(n, a, Ok(SnapshotOf(setup.cfg, s, false, r)))
  {
    var op, s, r := RenewIfDue(ask), n.state, w.clock(Deciding);
    if && UsableLease(setup.cfg, s, r).Some? && EffectiveNow(s.time, r) >= s.epoch.lease.value.renewAfter
       && s.nextRetry <= r.wall {
      SendsFrom(setup, n, op, w, n, ask, Saying(n, "renew", ask, None, Some(s.epoch.lease.value.compact)));
    }
  }

  /** A status is asked for exactly when a lease is held. */
  lemma StatusRequestMeans(setup: Setup, m: Machine, w: World, n: Machine)
    requires Ready(setup, m, SynchronizeStatus, w, n)
    ensures var a, s, ask := Operate(setup, m, SynchronizeStatus, w), n.state, Ask("", None, true);
            if s.epoch.lease.Some?
            then Sends(setup, n, w, ask, Saying(n, "status", ask, None, Some(s.epoch.lease.value.compact)), a)
            else Locally(n, a, Ok(SnapshotOf(setup.cfg, s, false, w.clock(Answering))))
  {
    var s, ask := n.state, Ask("", None, true);
    if s.epoch.lease.Some? {
      SendsFrom(setup, n, SynchronizeStatus, w, n, ask,
                Saying(n, "status", ask, None, Some(s.epoch.lease.value.compact)));
    }
  }

  /** A key of 1 to 160 characters is saved first and then sent; any other key is refused and not saved. */
  lemma KeyRequestMeans(setup: Setup, m: Machine, key: string, ask: Ask, w: World, n: Machine)
    requires Ready(setup, m, AuthorizeWithKey(key, ask), w, n)
    ensures var a := Operate(setup, m, AuthorizeWithKey(key, ask), w);
            if 1 <= |key| <= 160 then
              exists kept ::
                && SavedAs(setup, n.(state := n.state.(storedLicenseKey := Some(key))), w.clock(SavingFirst), kept)
                && Sends(setup, kept, w, ask, Saying(kept, "authorize", ask, Some(key), None), a)
            else Locally(n, a, Err(Configuration))
  {
    if 1 <= |key| <= 160 {
      var keyed := n.(state := n.state.(storedLicenseKey := Some(key)));
      var kept := Persist(setup, keyed, w.clock(SavingFirst));
      PersistMeans(setup, keyed, w.clock(SavingFirst), kept);
      SendsFrom(setup, n, AuthorizeWithKey(key, ask), w, kept, ask, Saying(kept, "authorize", ask, Some(key), None));
    }
  }

  /** The saved key is sent, if there is one. */
  lemma StoredKeyRequestMeans(setup: Setup, m: Machine, ask: Ask, w: World, n: Machine)
    requires Ready(setup, m, AuthorizeWithStoredKey(ask), w, n)
    ensures var a, key := Operate(setup, m, AuthorizeWithStoredKey(ask), w), n.state.storedLicenseKey;
            if key.Some? then Sends(setup, n, w, ask, Saying(n, "authorize", ask, key, None), a)
            else Locally(n, a, Ok(Snapshot(AuthDenied, None)))
  {
    if n.state.storedLicenseKey.Some? {
      SendsFrom(setup, n, AuthorizeWithStoredKey(ask), w, n, ask,
                Saying(n, "authorize", ask, n.state.storedLicenseKey, None));
    }
  }

  /** An account is always asked for, and no key is sent. */
  lemma AccountRequestMeans(setup: Setup, m: Machine, ask: Ask, w: World, n: Machine)
    requires Ready(setup, m, AuthorizeWithAccount(ask), w, n)
    ensures Sends(setup, n, w, ask, Saying(n, "authorize", ask, None, None),
                  Operate(setup, m, AuthorizeWithAccount(ask), w))
  {
    SendsFrom(setup, n, AuthorizeWithAccount(ask), w, n, ask, Saying(n, "authorize", ask, None, None));
  }

  /**
   * Every operation starts from the store, a restart as a new process. Without it no operation does anything; loading
   * and restarting send nothing and answer what the state shows.
   */
  lemma LocalMeans(setup: Setup, m: Machine, op: Operation, w: World)
    ensures var a, loaded := Operate(setup, m, op, w), Loaded(setup, m, op, w);
            && loaded == (if op.Restart? then Restarted(setup, m, w) else Reload(setup, m, w.clock(Loading)))
            && (loaded.failure.Some? ==> Locally(loaded.machine, a, Err(loaded.failure.value)))
            && (loaded.failure.None? && (op.Load? || op.Restart?) ==>
                  Locally(loaded.machine, a, Ok(SnapshotOf(setup.cfg, loaded.machine.state, false,
                                                           w.clock(Answering)))))
  {
  }

  // ---- trying again ----

  /** 30 seconds, doubled with every failure up to the fifth. */
  function BackOff(failures: int): int {
    if failures <= 1 then 30 else if failures == 2 then 60 else if failures == 3 then 120
    else if failures == 4 then 240 else 480
  }

  /** x is the least of the numbers. */
  predicate Least(x: int, s: seq<int>) {
    x in s && forall y | y in s :: x <= y
  }

  /**
   * The delay is what the server asks for, or else the chosen jitter up to the back-off, ten minutes and a third of the
   * time the lease has left; and never more than the time it has left.
   */
  lemma RetryDelayMeans(s: State, failures: int, now: int, retryAfter: Option<nat>, jitter: nat)
    ensures var delay := RetryDelay(s, failures, now, retryAfter, jitter);
            var left := if s.epoch.lease.Some? && now < s.epoch.lease.value.expiresAt
                then s.epoch.lease.value.expiresAt - now else 0;
            if retryAfter.Some? then
              Least(delay, if s.epoch.lease.Some? then [retryAfter.value, left] else [retryAfter.value])
            else
              Least(delay, if s.epoch.lease.Some? then [jitter, BackOff(failures), 600, left / 3]
                           else [jitter, BackOff(failures), 600])
  {
    assert Doubled(0) == 1 && Doubled(1) == 2 && Doubled(2) == 4 && Doubled(3) == 8 && Doubled(4) == 16;
  }

  /** One more failure is counted, up to thirty, and the next retry is saved. */
  lemma ScheduleRetryMeans(setup: Setup, m: Machine, retryAfter: Option<nat>, jitter: nat, clock: Clock)
    ensures var failures, now := if m.state.retryFailures < 30 then m.state.retryFailures + 1 else 30,
                                 clock(Retrying).wall;
            var delay := RetryDelay(m.state, failures, now, retryAfter, jitter);
            SavedAs(setup, m.(state := m.state.(retryFailures := failures, nextRetry := now + delay)),
                    clock(SavingRetry), ScheduleRetry(setup, m, retryAfter, jitter, clock))
  {
    var failures, now := Min(m.state.retryFailures + 1, 30), clock(Retrying).wall;
    var delay := RetryDelay(m.state, failures, now, retryAfter, jitter);
    PersistMeans(setup, m.(state := m.state.(retryFailures := failures, nextRetry := now + delay)),
                 clock(SavingRetry), ScheduleRetry(setup, m, retryAfter, jitter, clock));
  }
}
