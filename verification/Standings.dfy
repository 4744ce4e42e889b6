/** What the caller is told: the clock, the snapshot of a state, and the standing after each kind of answer. */
module Standings {
  import opened Outcomes
  import opened Tokens
  import opened Exchange
  import opened Persistence
  import opened Session
  import opened Crashes
  import opened Clocks
  import opened Documents
  import opened Verdicts
  import opened Endings

  // ---- the clock ----

  /** The boot counter can be trusted to have counted since the anchor. */
  predicate Counting(t: Checkpoint, r: Reading) {
    t.serverAnchor > 0 && r.boot == t.bootIdentifier && r.monotonic >= t.anchorMonotonic
  }

  /** The server's time plus the whole seconds counted since, up to the end of the year 9999. */
  function Counted(t: Checkpoint, r: Reading): int {
    var now := t.serverAnchor + (r.monotonic - t.anchorMonotonic) / 1000;
    if now <= 2932897 * 86400 - 1 then now else 2932897 * 86400 - 1
  }

  /** The time is the counter's, or else the wall clock's, and never before the last one known to be good. */
  lemma EffectiveNowMeans(t: Checkpoint, r: Reading)
    ensures AnchoredTime(t, r) == if Counting(t, r) then Some(Counted(t, r)) else None
    ensures var now, shown := EffectiveNow(t, r), if Counting(t, r) then Counted(t, r) else r.wall;
            now >= t.lastKnownGood && now >= shown && (now == t.lastKnownGood || now == shown)
  {
  }

  /**
   * The clock is not trusted when it was marked so, when the counter is behind the last known good time or has gone
   * back; and in a persistent session when the wall clock is behind, or after a reboot if that is not allowed offline.
   */
  lemma UntrustedMeans(cfg: Config, t: Checkpoint, r: Reading)
    ensures Untrusted(cfg, t, r) <==>
            || t.clockUntrusted
            || (Counting(t, r) && Counted(t, r) + 5 < t.lastKnownGood)
            || (t.serverAnchor > 0 && r.boot == t.bootIdentifier && r.monotonic < t.anchorMonotonic)
            || (!Counting(t, r) && cfg.persistent && r.wall + 5 < t.lastKnownGood)
            || (t.serverAnchor > 0 && r.boot != t.bootIdentifier && cfg.persistent && cfg.requireOnlineAfterReboot)
  {
  }

  // ---- the state ----

  /** A lease is usable exactly when it is held, nothing has happened to it, the clock is trusted and it lasts. */
  lemma UsableMeans(cfg: Config, s: State, r: Reading, lease: Lease)
    ensures UsableLease(cfg, s, r) == Some(lease) <==>
            && s.epoch.lease == Some(lease)
            && !s.epoch.ending && !s.epoch.ended && !s.epoch.revoked && !s.epoch.serverExpired
            && !Untrusted(cfg, s.time, r) && EffectiveNow(s.time, r) < lease.expiresAt
  {
  }

  /** Each standing of a state has its exact condition, and the lease is shown exactly when it is usable. */
  lemma SnapshotMeans(cfg: Config, s: State, online: bool, r: Reading)
    ensures var e, now, shown := s.epoch, EffectiveNow(s.time, r), SnapshotOf(cfg, s, online, r);
            var held := !e.ending && !e.revoked && !e.ended && e.lease.Some?;
            && shown.lease == UsableLease(cfg, s, r)
            && (shown.standing == IsEnding <==> e.ending)
            && (shown.standing == Inactive <==> !e.ending && e.revoked)
            && (shown.standing == IsEnded <==> !e.ending && !e.revoked && e.ended)
            && (shown.standing == AuthDenied <==> !e.ending && !e.revoked && !e.ended && e.lease.None?)
            && (shown.standing == ClockUntrusted <==> held && Untrusted(cfg, s.time, r))
            && (shown.standing == IsExpired <==>
                held && !Untrusted(cfg, s.time, r) && (e.serverExpired || now >= e.lease.value.expiresAt))
            && (shown.standing == RenewalDue <==> shown.lease.Some? && now >= e.lease.value.renewAfter)
            && (shown.standing == AuthorizedOnline <==>
                shown.lease.Some? && now < e.lease.value.renewAfter && online)
            && (shown.standing == AuthorizedOffline <==>
                shown.lease.Some? && now < e.lease.value.renewAfter && !online)
  {
  }

  // ---- the response ----

  function CodeOf(response: Response): Option<string> {
    if response.decision.Some? then Some(response.decision.value.responseCode) else None
  }

  /** The codes that have a standing of their own. */
  const TELLING: set<string> :=
    {"LEASE_REVOKED", "LEASE_ENDED", "PROTOCOL_UPGRADE_REQUIRED", "AUTH_MODE_IN_USE", "LEASE_ALREADY_ACTIVE",
     "DEVICE_BINDING_MISMATCH", "STALE_GENERATION", "LEASE_RECLAIM_PENDING"}

  /** A denial without a telling code. */
  predicate Denies(response: Response) {
    && response.decision.Some? && response.decision.value.responseCode !in TELLING && !Decides(response, Expired)
    && !(200 <= response.httpStatus < 300)
  }

  /** What each code, each denial and each success is answered with. */
  lemma ResponseMeans(cfg: Config, s: State, response: Response, authorizing: bool, r: Reading)
    ensures var shown, usable := ResponseSnapshot(cfg, s, response, authorizing, r), UsableLease(cfg, s, r);
            var code := CodeOf(response);
            && (code == Some("LEASE_REVOKED") ==> shown == Snapshot(Inactive, None))
            && (code == Some("LEASE_ENDED") ==> shown == Snapshot(IsEnded, None))
            && (code == Some("PROTOCOL_UPGRADE_REQUIRED") ==> shown == Snapshot(UpgradeRequired, usable))
            && (code in {Some("AUTH_MODE_IN_USE"), Some("LEASE_ALREADY_ACTIVE")} ==>
                  shown == Snapshot(ModeInUse, usable))
            && (code == Some("DEVICE_BINDING_MISMATCH") ==> shown == Snapshot(DeviceChanged, None))
            && (code == Some("STALE_GENERATION") ==> shown == SnapshotOf(cfg, s, false, r))
            && (code == Some("LEASE_RECLAIM_PENDING") ==> shown == Snapshot(IsExpired, None))
            && (code.Some? && code.value !in TELLING && Decides(response, Expired) ==>
                  shown == Snapshot(IsExpired, None))
            && (Denies(response) && !authorizing && s.epoch.revoked ==> shown == Snapshot(Inactive, None))
            && (Denies(response) && !authorizing && !s.epoch.revoked && s.epoch.ended ==>
                  shown == Snapshot(IsEnded, None))
            && (Denies(response) && (authorizing || !(s.epoch.revoked || s.epoch.ended)) ==>
                  shown == Snapshot(AuthDenied, usable))
            && (code.None? || (code.value !in TELLING && !Decides(response, Expired) && !Denies(response)) ==>
                  shown == SnapshotOf(cfg, s, true, r))
  {
  }

  // ---- the operation ----

  /** No answer, or one that cannot be verified: a retry is scheduled, or the error is reported. */
  lemma UnansweredMeans(setup: Setup, m: Machine, op: Operation, w: World)
    requires !op.End? && Sending(setup, m, op, w).Some? && Answered(setup, m, op, w).None?
    ensures var a, (n, q) := Perform(setup, m, op, w), Sending(setup, m, op, w).value;
            var processed := Process(setup.cfg, n.ring, Final(setup.cfg, w.network), q);
            && processed.Err? && a.heard.None?
            && (if processed.failure == Transport then
                  && a.machine == ScheduleRetry(setup, n, None, w.jitter, w.clock)
                  && a.result == Ok(Snapshot(NetworkUnavailable,
                                             UsableLease(setup.cfg, a.machine.state, w.clock(Answering))))
                else a.machine == n && a.result == Err(processed.failure))
  {
    PerformSends(setup, m, op, w);
  }

  /** The server does not know the key that was sent: only then is the saved key forgotten. */
  predicate UnknownKey(op: Operation, response: Response) {
    (op.AuthorizeWithKey? || op.AuthorizeWithStoredKey?) && CodeOf(response) == Some("KEY_NOT_FOUND")
  }

  /** Only the answer to an authorize request can start a new epoch. */
  predicate Renewing(op: Operation) {
    !op.AuthorizeWithKey? && !op.AuthorizeWithStoredKey? && !op.AuthorizeWithAccount?
  }

  /** The saved key goes if the server does not know it, and stays otherwise. */
  ghost predicate Keeps(setup: Setup, m: Machine, op: Operation, response: Response, r: Reading, kept: Machine) {
    if UnknownKey(op, response) then SavedAs(setup, m.(state := m.state.(storedLicenseKey := None)), r, kept)
    else kept == m
  }

  /** The rest, once the response is accepted: a busy server is asked again later, and the caller is told. */
  ghost predicate Concludes(setup: Setup, kept: Machine, op: Operation, response: Response, w: World, n: Machine,
                            shown: Snapshot) {
    if response.httpStatus == 429 || response.httpStatus >= 500 then
      && n == ScheduleRetry(setup, kept, response.retryAfter, w.jitter, w.clock)
      && shown == Snapshot(NetworkUnavailable, UsableLease(setup.cfg, n.state, w.clock(Answering)))
    else
      && n == kept
      && shown == if UnknownKey(op, response) then Snapshot(AuthDenied, None)
                  else if !(200 <= response.httpStatus < 300) && response.decision.None?
                      then Snapshot(ProtocolFailure, None)
                  else ResponseSnapshot(setup.cfg, kept.state, response, !Renewing(op), w.clock(Answering))
  }

  lemma ConcludeMeans(setup: Setup, m: Machine, op: Operation, response: Response, w: World) returns (kept: Machine)
    ensures var (n, shown) := Conclude(setup, m, response, Authorizes(op), Forgets(op), w);
            && Keeps(setup, m, op, response, w.clock(SavingLast), kept)
            && Concludes(setup, kept, op, response, w, n, shown)
  {
    kept := Keeping(setup, m, response, Forgets(op), w);
    if UnknownKey(op, response) {
      PersistMeans(setup, m.(state := m.state.(storedLicenseKey := None)), w.clock(SavingLast), kept);
    }
  }

  lemma PerformAnswered(setup: Setup, m: Machine, op: Operation, w: World, received: Machine, response: Response)
    requires !op.End? && Answered(setup, m, op, w) == Some((received, response))
    ensures Perform(setup, m, op, w)
            == FinishExecute(setup, received, response, Authorizes(op), Forgets(op), w,
                             Postings(setup.cfg, Sending(setup, m, op, w).value.1, w))
  {
    PerformSends(setup, m, op, w);
  }

  /** A refused response is reported; an accepted one is answered by what it says. */
  lemma AnsweredMeans(setup: Setup, m: Machine, op: Operation, w: World, received: Machine, response: Response)
    requires !op.End? && Answered(setup, m, op, w) == Some((received, response))
    ensures var a := Perform(setup, m, op, w);
            var o := if response.lease.Some? || response.decision.Some? || response.status.Some?
                then Accept(setup, received, response, !Renewing(op), w.clock) else Outcome(received, None);
            if o.failure.Some? then a.machine == o.machine && a.result == Err(o.failure.value)
            else
              a.result.Ok? && exists kept ::
                && Keeps(setup, o.machine, op, response, w.clock(SavingLast), kept)
                && Concludes(setup, kept, op, response, w, a.machine, a.result.value)
  {
    PerformAnswered(setup, m, op, w, received, response);
    AcceptNeverTransport(setup, received, response, Authorizes(op), w.clock);
    var o := if response.lease.Some? || response.decision.Some? || response.status.Some?
        then Accept(setup, received, response, Authorizes(op), w.clock) else Outcome(received, None);
    if o.failure.None? {
      var kept := ConcludeMeans(setup, o.machine, op, response, w);
    }
  }

  /** The only answer that is told as being online: a success that is not stale. */
  lemma OnlineAnswer(setup: Setup, kept: Machine, op: Operation, response: Response, w: World, n: Machine,
                     shown: Snapshot)
    requires Concludes(setup, kept, op, response, w, n, shown) && shown.standing == AuthorizedOnline
    ensures 200 <= response.httpStatus < 300 && !Stale(response)
    ensures shown.lease.Some? && shown.lease == UsableLease(setup.cfg, n.state, w.clock(Answering))
  {
    ResponseMeans(setup.cfg, kept.state, response, Authorizes(op), w.clock(Answering));
    SnapshotMeans(setup.cfg, kept.state, true, w.clock(Answering));
    SnapshotMeans(setup.cfg, kept.state, false, w.clock(Answering));
  }

  lemma EndNeverOnline(setup: Setup, m: Machine, reason: string, w: World)
    ensures var a := EndLocked(setup, m, reason, w); a.result.Ok? ==> a.result.value.standing != AuthorizedOnline
  {
    SnapshotMeans(setup.cfg, m.state, false, w.clock(Answering));
    var b := WithPendingEnd(setup, m, reason, w);
    if b.failure.None? && b.machine.state.epoch.pendingEnd.Some? {
      SendEndNeverOnline(setup, b.machine, b.machine.state.epoch.pendingEnd.value, w);
    }
  }

  lemma SendEndNeverOnline(setup: Setup, m: Machine, q: PreparedRequest, w: World)
    ensures var a := SendEnd(setup, m, q, w); a.result.Ok? ==> a.result.value.standing != AuthorizedOnline
  {
    match Process(setup.cfg, m.ring, Final(setup.cfg, w.network), q)
    case Err(f) =>
    case Ok(p) =>
      var o := Accept(setup, m.(ring := p.ring), p.response, false, w.clock);
      SnapshotMeans(setup.cfg, o.machine.state, false, w.clock(Answering));
  }

  lemma UnsentNeverOnline(setup: Setup, m: Machine, op: Operation, w: World)
    requires !op.End? && Sending(setup, m, op, w).None?
    ensures var a := Perform(setup, m, op, w); a.result.Ok? ==> a.result.value.standing != AuthorizedOnline
  {
    SnapshotMeans(setup.cfg, m.state, false, w.clock(Answering));
    SnapshotMeans(setup.cfg, m.state, false, w.clock(Deciding));
  }

  lemma OnlineWhenAnswered(setup: Setup, m: Machine, op: Operation, w: World, received: Machine, response: Response)
    requires !op.End? && Answered(setup, m, op, w) == Some((received, response))
    requires var a := Perform(setup, m, op, w); a.result.Ok? && a.result.value.standing == AuthorizedOnline
    ensures var a := Perform(setup, m, op, w);
            && a.heard == Some(response) && 200 <= response.httpStatus < 300 && response.status.Some?
            && Commits(setup.cfg, m.state, response, Authorizes(op))
            && a.result.value.lease.Some?
            && a.result.value.lease == UsableLease(setup.cfg, a.machine.state, w.clock(Answering))
  {
    var a := Perform(setup, m, op, w);
    var (n, q) := Sending(setup, m, op, w).value;
    AnsweredMeans(setup, m, op, w, received, response);
    var o := if Signed(response) then Accept(setup, received, response, Authorizes(op), w.clock)
        else Outcome(received, None);
    var kept :| Keeps(setup, o.machine, op, response, w.clock(SavingLast), kept)
                && Concludes(setup, kept, op, response, w, a.machine, a.result.value);
    OnlineAnswer(setup, kept, op, response, w, a.machine, a.result.value);
    ProcessExtends(setup.cfg, n.ring, Final(setup.cfg, w.network), q);
    HeardIs(setup, m, op, w);
    SendingCommits(setup, m, op, w, response);
  }

  lemma PerformOnline(setup: Setup, m: Machine, op: Operation, w: World)
    requires var a := Perform(setup, m, op, w); a.result.Ok? && a.result.value.standing == AuthorizedOnline
    ensures var a := Perform(setup, m, op, w);
            && a.heard.Some? && 200 <= a.heard.value.httpStatus < 300 && a.heard.value.status.Some?
            && Commits(setup.cfg, m.state, a.heard.value, Authorizes(op))
            && a.result.value.lease.Some?
            && a.result.value.lease == UsableLease(setup.cfg, a.machine.state, w.clock(Answering))
  {
    if op.End? {
      EndNeverOnline(setup, m, op.reason, w);
    } else if Sending(setup, m, op, w).None? {
      UnsentNeverOnline(setup, m, op, w);
    } else if Answered(setup, m, op, w).None? {
      UnansweredMeans(setup, m, op, w);
    } else {
      var (received, response) := Answered(setup, m, op, w).value;
      OnlineWhenAnswered(setup, m, op, w, received, response);
    }
  }

  /**
   * Nobody is told that they are authorized online unless a success was heard, with a signed status, and accepted, and
   * the lease is usable.
   */
  lemma OnlineMeansAccepted(setup: Setup, m: Machine, op: Operation, w: World)
    requires var a := Operate(setup, m, op, w); a.result.Ok? && a.result.value.standing == AuthorizedOnline
    ensures var a, loaded := Operate(setup, m, op, w), Loaded(setup, m, op, w);
            && loaded.failure.None?
            && a.heard.Some? && 200 <= a.heard.value.httpStatus < 300 && a.heard.value.status.Some?
            && Commits(setup.cfg, loaded.machine.state, a.heard.value, Authorizes(op))
            && a.result.value.lease.Some?
            && a.result.value.lease == UsableLease(setup.cfg, a.machine.state, w.clock(Answering))
  {
    PerformOnline(setup, Loaded(setup, m, op, w).machine, op, w);
  }
}
