/** One step of the authorization session: clocks, responses, saving, and the public operations. */
module Session {
  import opened Outcomes
  import opened Tokens
  import opened KeyChain
  import opened Exchange
  import opened Persistence

  /** The moments of one operation at which the clock is read, in order. */
  datatype Moment =
    Loading | Deciding | SavingFirst | Anchoring | SavingAccepted | SavingLast | Retrying | SavingRetry | Answering

  type Clock = Moment -> Reading

  datatype Standing = AuthorizedOnline | AuthorizedOffline | RenewalDue | IsExpired | IsEnding | IsEnded | Inactive
    | ModeInUse | UpgradeRequired | ClockUntrusted | DeviceChanged | AuthDenied | NetworkUnavailable | ProtocolFailure

  datatype Snapshot = Snapshot(standing: Standing, lease: Option<Lease>)

  // ---- time ----

  function Max(x: int, y: int): int {
    if x < y then y else x
  }

  function Min(x: int, y: int): int {
    if x < y then x else y
  }

  /** Server time plus the seconds since, while the boot counter is the one it was anchored to. */
  function AnchoredTime(t: Checkpoint, r: Reading): Option<int> {
    if t.serverAnchor <= 0 || t.bootIdentifier != r.boot || r.monotonic < t.anchorMonotonic then None
    else Some(t.serverAnchor + Min((r.monotonic - t.anchorMonotonic) / 1000, MAX_TIME - t.serverAnchor))
  }

  function EffectiveNow(t: Checkpoint, r: Reading): int {
    var anchored := AnchoredTime(t, r);
    Max(t.lastKnownGood, if anchored.Some? then anchored.value else r.wall)
  }

  predicate Untrusted(cfg: Config, t: Checkpoint, r: Reading) {
    var anchored := AnchoredTime(t, r);
    if t.clockUntrusted then true
    else if anchored.Some? then anchored.value + 5 < t.lastKnownGood
    else if t.serverAnchor > 0 && t.bootIdentifier == r.boot then true
    else (cfg.persistent && r.wall + 5 < t.lastKnownGood)
         || (cfg.persistent && cfg.requireOnlineAfterReboot && t.serverAnchor > 0 && t.bootIdentifier != r.boot)
  }

  function UsableLease(cfg: Config, s: State, r: Reading): Option<Lease> {
    var e := s.epoch;
    if e.ending || e.ended || e.revoked || e.lease.None? || Untrusted(cfg, s.time, r) || e.serverExpired
       || EffectiveNow(s.time, r) >= e.lease.value.expiresAt
    then None else e.lease
  }

  function SnapshotOf(cfg: Config, s: State, online: bool, r: Reading): Snapshot {
    var e := s.epoch;
    if e.ending then Snapshot(IsEnding, None)
    else if e.revoked then Snapshot(Inactive, None)
    else if e.ended then Snapshot(IsEnded, None)
    else if e.lease.None? then Snapshot(AuthDenied, None)
    else if Untrusted(cfg, s.time, r) then Snapshot(ClockUntrusted, None)
    else if e.serverExpired || EffectiveNow(s.time, r) >= e.lease.value.expiresAt then Snapshot(IsExpired, None)
    else if EffectiveNow(s.time, r) >= e.lease.value.renewAfter then Snapshot(RenewalDue, e.lease)
    else Snapshot(if online then AuthorizedOnline else AuthorizedOffline, e.lease)
  }

  // ---- the session and its store ----

  /** The session's state, the client's ring, the document in the store, and every document written so far. */
  datatype Machine = Machine(state: State, ring: Ring, store: Option<Document>, written: seq<Document>)

  /** A machine and, if the source throws, the error. */
  datatype Outcome = Outcome(machine: Machine, failure: Option<Failure>)

  /** The result of a public operation, the requests it posted, and the signed response it took into account. */
  datatype Answer = Answer(machine: Machine, result: Result<Snapshot>, posted: seq<PreparedRequest>,
                           heard: Option<Response>)

  /** The state as persist() writes it. */
  function Stamped(setup: Setup, s: State, r: Reading): State {
    var later := s.(time := s.time.(lastKnownGood := Max(s.time.lastKnownGood, EffectiveNow(s.time, r))));
    later.(stateSignature := Some(setup.sign(Serialize(setup.cfg, later, false))), allowsUnsigned := false)
  }

  function Persist(setup: Setup, m: Machine, r: Reading): Machine {
    if !setup.cfg.persistent then m
    else
      var s := Stamped(setup, m.state, r);
      var d := Serialize(setup.cfg, s, true);
      m.(state := s, store := Some(d), written := m.written + [d])
  }

  /** The ring after a failed reload: the previous chain is restored if it still replays. */
  function RingAfterFailure(cfg: Config, m: Machine, loaded: Ring): Ring {
    match Restore(cfg, m.state.keyTransitions, m.state.keysetSequence)
    case Ok(ring) => ring
    case Err(f) => loaded
  }

  function Reload(setup: Setup, m: Machine, r: Reading): Outcome {
    if !setup.cfg.persistent then Outcome(m, None)
    else if m.store.None? then Outcome(m, Some(InvalidState))
    else match Authentic(setup, m.store.value, m.state.thumbprint, m.state.keyReference, r)
      case Err(f) => Outcome(m, Some(f))
      case Ok(s) =>
        match VerifyRuntime(setup.cfg, s)
        case Ok(v) => Outcome(m.(state := WithTokens(s, v), ring := v.ring), None)
        case Err(f) =>
          var attempted := Restore(setup.cfg, s.keyTransitions, s.keysetSequence);
          var ring := RingAfterFailure(setup.cfg, m, if attempted.Ok? then attempted.value else m.ring);
          var again := Restore(setup.cfg, m.state.keyTransitions, m.state.keysetSequence);
          Outcome(m.(ring := ring), Some(if again.Ok? then f else InvalidState))
  }

  // ---- accepting a response ----

  function Terminated(e: Epoch, revoked: bool): Epoch {
    e.(revoked := revoked, ended := !revoked, lease := None, leaseCompact := None, pendingEnd := None, ending := false)
  }

  function AfterStatus(e: Epoch, status: Status): Epoch {
    if e.lease.None? then e
    else if status.deviceRevoked || status.grant.GrantRevoked? || status.minimumGeneration > e.lease.value.generation
            || e.lease.value.signingKeyId in status.revokedKids
    then Terminated(e, true)
    else if status.grant.GrantEnded? then Terminated(e, false)
    else if status.grant.GrantReclaimPending? then e.(serverExpired := true)
    else e
  }

  function AfterDecision(e: Epoch, decision: Decision): Epoch {
    match decision.disposition
    case Revoked => Terminated(e, true)
    case Ended => Terminated(e, false)
    case Expired => e.(serverExpired := true)
    case Unchanged => e
  }

  /** A signed /authorize lease starts a new epoch. */
  function NewEpoch(e: Epoch, lease: Lease): Epoch {
    e.(ending := false, ended := false, revoked := false, pendingEnd := None, status := None, statusCompact := None,
       minimumGeneration := 0, highestGeneration := lease.generation, authorizationId := lease.authorizationId)
  }

  function AfterLease(e: Epoch, lease: Lease, authorizing: bool): Epoch {
    var t := if authorizing then NewEpoch(e, lease) else e;
    t.(lease := Some(lease), leaseCompact := Some(lease.compact),
       highestGeneration := Max(t.highestGeneration, lease.generation), serverExpired := false)
  }

  function WithLease(e: Epoch, response: Response, authorizing: bool): Epoch {
    if response.lease.Some? then AfterLease(e, response.lease.value, authorizing) else e
  }

  function WithStatus(e: Epoch, response: Response): Epoch {
    if response.status.None? then e
    else
      var status := response.status.value;
      AfterStatus(e.(status := response.status, statusCompact := Some(status.compact),
                     statusSequence := status.sequence, minimumGeneration := status.minimumGeneration), status)
  }

  function WithDecision(e: Epoch, response: Response): Epoch {
    if response.decision.Some? then AfterDecision(e, response.decision.value) else e
  }

  /** The epoch after a response: first its lease, then its status, then its decision. */
  function Judged(e: Epoch, response: Response, authorizing: bool): Epoch {
    WithDecision(WithStatus(WithLease(e, response, authorizing), response), response)
  }

  function ServerTime(response: Response): Option<int> {
    if response.status.Some? then Some(response.status.value.issuedAt)
    else if response.decision.Some? then Some(response.decision.value.issuedAt)
    else if response.lease.Some? then Some(response.lease.value.issuedAt)
    else None
  }

  /** Verified, request-bound time replaces the checkpoint. */
  function Anchored(t: Checkpoint, response: Response, r: Reading): Checkpoint {
    var time := ServerTime(response);
    if time.None? then t else Checkpoint(time.value, time.value, r.monotonic, r.wall, r.boot, false)
  }

  /** The state that accept commits to, before it is saved. */
  function Committed(s: State, links: seq<string>, response: Response, authorizing: bool, r: Reading): State {
    s.(keyTransitions := links, keysetSequence := response.keysetSequence,
       epoch := Judged(s.epoch, response, authorizing), time := Anchored(s.time, response, r),
       retryFailures := 0, nextRetry := 0)
  }

  /** accept throws before it changes anything but the ring. */
  predicate MovedBack(s: State, response: Response, authorizing: bool) {
    || response.keysetSequence < s.keysetSequence
    || (response.status.Some? && response.status.value.sequence < s.epoch.statusSequence)
    || (!authorizing && response.lease.Some? && response.lease.value.generation < s.epoch.highestGeneration)
  }

  predicate Stale(response: Response) {
    response.decision.Some? && response.decision.value.responseCode == "STALE_GENERATION"
  }

  /** accept gets as far as its commit. */
  predicate Commits(cfg: Config, s: State, response: Response, authorizing: bool) {
    && !MovedBack(s, response, authorizing) && !Stale(response)
    && Restore(cfg, s.keyTransitions + response.keyTransitions, response.keysetSequence).Ok?
  }

  function Accept(setup: Setup, m: Machine, response: Response, authorizing: bool, clock: Clock): Outcome {
    if MovedBack(m.state, response, authorizing) then Outcome(m, Some(InvalidState))
    else if Stale(response) then Reload(setup, m, clock(Anchoring))
    else
      var links := m.state.keyTransitions + response.keyTransitions;
      match Restore(setup.cfg, links, response.keysetSequence)
      case Err(f) =>
        // the previous chain is restored; should that fail too, the ring stays as process left it
        var again := Restore(setup.cfg, m.state.keyTransitions, m.state.keysetSequence);
        Outcome(m.(ring := if again.Ok? then again.value else m.ring), Some(f))
      case Ok(ring) =>
        var s := Committed(m.state, links, response, authorizing, clock(Anchoring));
        Outcome(Persist(setup, m.(state := s, ring := ring), clock(SavingAccepted)), None)
  }

  // ---- retrying later ----

  function Doubled(n: nat): int {
    if n == 0 then 1 else 2 * Doubled(n - 1)
  }

  function RetryDelay(s: State, failures: int, now: int, retryAfter: Option<nat>, jitter: nat): int {
    var ceiling := if s.epoch.lease.Some? then Max(0, Min(600, (s.epoch.lease.value.expiresAt - now) / 3)) else 600;
    var exponential := Min(ceiling, 30 * Doubled(if failures < 1 then 0 else Min(failures - 1, 4)));
    var delay := if retryAfter.Some? then retryAfter.value else Min(jitter, Max(0, exponential));
    if s.epoch.lease.Some? then Min(delay, Max(0, s.epoch.lease.value.expiresAt - now)) else delay
  }

  function ScheduleRetry(setup: Setup, m: Machine, retryAfter: Option<nat>, jitter: nat, clock: Clock): Machine {
    var failures := Min(m.state.retryFailures + 1, 30);
    var now := clock(Retrying).wall;
    var delay := RetryDelay(m.state, failures, now, retryAfter, jitter);
    Persist(setup, m.(state := m.state.(retryFailures := failures, nextRetry := now + delay)), clock(SavingRetry))
  }

  // ---- requests ----

  /** The caller's part of a request. `fits` stands for the length checks on its texts. */
  datatype Ask = Ask(fields: string, hwid: Option<string>, fits: bool)

  function ContentOf(endpoint: string, ask: Ask, credential: Option<string>, lease: Option<string>, s: State,
                     ring: Ring): Content {
    Content(endpoint, credential, lease, ask.hwid, ask.fields, ring.Keys, s.keysetSequence, s.epoch.statusSequence)
  }

  function Prepare(setup: Setup, endpoint: string, ask: Ask, credential: Option<string>, lease: Option<string>,
                   s: State, ring: Ring, jti: string): Result<PreparedRequest> {
    if !SafeNonnegative(s.keysetSequence) || !SafeNonnegative(s.epoch.statusSequence) || !ask.fits
       || (credential.Some? && !(1 <= |credential.value| <= 160)) || (lease.Some? && !(1 <= |lease.value| <= 32768))
    then Err(Configuration)
    else
      var content := ContentOf(endpoint, ask, credential, lease, s, ring);
      var (input, signature) := setup.proof(content, jti);
      Ok(PreparedRequest(
        endpoint, setup.cfg.origin + "/api/nightflyer/v1/" + endpoint, "{" + setup.render(content) + "}",
        input + "." + signature, jti, lease, ask.hwid, s.keysetSequence, s.epoch.statusSequence))
  }

  /** What the environment contributes to one operation. */
  datatype World = World(clock: Clock, network: nat -> Raw, jti: string, jitter: nat)

  function Postings(cfg: Config, request: PreparedRequest, w: World): seq<PreparedRequest> {
    seq(Posts(cfg, w.network), _ => request)
  }

  predicate Overloaded(response: Response) {
    response.httpStatus == 429 || response.httpStatus >= 500
  }

  function ResponseSnapshot(cfg: Config, s: State, response: Response, authorizing: bool, r: Reading): Snapshot {
    if response.decision.None? then SnapshotOf(cfg, s, true, r)
    else
      var code := response.decision.value.responseCode;
      if code == "LEASE_REVOKED" then Snapshot(Inactive, None)
      else if code == "LEASE_ENDED" then Snapshot(IsEnded, None)
      else if code == "PROTOCOL_UPGRADE_REQUIRED" then Snapshot(UpgradeRequired, UsableLease(cfg, s, r))
      else if code == "AUTH_MODE_IN_USE" || code == "LEASE_ALREADY_ACTIVE"
          then Snapshot(ModeInUse, UsableLease(cfg, s, r))
      else if code == "DEVICE_BINDING_MISMATCH" then Snapshot(DeviceChanged, None)
      else if code == "STALE_GENERATION" then SnapshotOf(cfg, s, false, r)
      else if code == "LEASE_RECLAIM_PENDING" || response.decision.value.disposition.Expired?
          then Snapshot(IsExpired, None)
      else if Success(response.httpStatus) then SnapshotOf(cfg, s, true, r)
      else if authorizing then Snapshot(AuthDenied, UsableLease(cfg, s, r))
      else if s.epoch.revoked then Snapshot(Inactive, None)
      else if s.epoch.ended then Snapshot(IsEnded, None)
      else Snapshot(AuthDenied, UsableLease(cfg, s, r))
  }

  /** What the handler of a thrown error answers: a transport error schedules a retry, any other one goes on. */
  function Caught(setup: Setup, m: Machine, failure: Failure, ending: bool, w: World, posted: seq<PreparedRequest>,
                  heard: Option<Response>): Answer {
    if failure != Transport then Answer(m, Err(failure), posted, heard)
    else
      var later := ScheduleRetry(setup, m, None, w.jitter, w.clock);
      Answer(later, Ok(Waiting(setup.cfg, later.state, ending, w.clock(Answering))), posted, heard)
  }

  function Waiting(cfg: Config, s: State, ending: bool, r: Reading): Snapshot {
    if ending then Snapshot(IsEnding, None) else Snapshot(NetworkUnavailable, UsableLease(cfg, s, r))
  }

  predicate Signed(response: Response) {
    response.lease.Some? || response.decision.Some? || response.status.Some?
  }

  function Heard(response: Response): Option<Response> {
    if Signed(response) then Some(response) else None
  }

  /** The server does not know the credential, and it is to be forgotten then. */
  predicate Missing(response: Response, forgetMissingKey: bool) {
    forgetMissingKey && response.decision.Some? && response.decision.value.responseCode == "KEY_NOT_FOUND"
  }

  /** The machine with the credential it keeps. */
  function Keeping(setup: Setup, m: Machine, response: Response, forgetMissingKey: bool, w: World): Machine {
    if Missing(response, forgetMissingKey) then
      Persist(setup, m.(state := m.state.(storedLicenseKey := None)), w.clock(SavingLast))
    else m
  }

  /** The rest of execute, after a response was accepted. */
  function Conclude(setup: Setup, m: Machine, response: Response, authorizing: bool, forgetMissingKey: bool,
                    w: World): (Machine, Snapshot) {
    var kept := Keeping(setup, m, response, forgetMissingKey, w);
    if Overloaded(response) then
      var later := ScheduleRetry(setup, kept, response.retryAfter, w.jitter, w.clock);
      (later, Waiting(setup.cfg, later.state, false, w.clock(Answering)))
    else if Missing(response, forgetMissingKey) then (kept, Snapshot(AuthDenied, None))
    else if !Success(response.httpStatus) && response.decision.None? then (kept, Snapshot(ProtocolFailure, None))
    else (kept, ResponseSnapshot(setup.cfg, kept.state, response, authorizing, w.clock(Answering)))
  }

  function Execute(setup: Setup, m: Machine, prepared: Result<PreparedRequest>, authorizing: bool,
                   forgetMissingKey: bool, w: World): Answer {
    match prepared
    case Err(f) => Answer(m, Err(f), [], None)
    case Ok(request) =>
      var posted := Postings(setup.cfg, request, w);
      match Process(setup.cfg, m.ring, Final(setup.cfg, w.network), request)
      case Err(f) => Caught(setup, m, f, false, w, posted, None)
      case Ok(p) => FinishExecute(setup, m.(ring := p.ring), p.response, authorizing, forgetMissingKey, w, posted)
  }

  /** What execute does with an answer that was verified. */
  function FinishExecute(setup: Setup, m: Machine, response: Response, authorizing: bool, forgetMissingKey: bool,
                         w: World, posted: seq<PreparedRequest>): Answer {
    var accepted := if Signed(response) then Accept(setup, m, response, authorizing, w.clock) else Outcome(m, None);
    if accepted.failure.Some? then
      Caught(setup, accepted.machine, accepted.failure.value, false, w, posted, Heard(response))
    else
      var (after, snapshot) := Conclude(setup, accepted.machine, response, authorizing, forgetMissingKey, w);
      Answer(after, Ok(snapshot), posted, Heard(response))
  }

  // ---- ending ----

  function EndAsk(reason: string): Ask {
    Ask(reason, None, 1 <= |reason| <= 128)
  }

  /** The pending end request, created and saved if there is none. */
  function WithPendingEnd(setup: Setup, m: Machine, reason: string, w: World): (r: Outcome)
    ensures r.failure.None? && (m.state.epoch.pendingEnd.Some? || m.state.epoch.lease.Some?)
            ==> r.machine.state.epoch.pendingEnd.Some?
  {
    if m.state.epoch.pendingEnd.Some? || m.state.epoch.lease.None? then Outcome(m, None)
    else match Prepare(setup, "end", EndAsk(reason), None, Some(m.state.epoch.lease.value.compact), m.state, m.ring,
                       w.jti)
      case Err(f) => Outcome(m, Some(f))
      case Ok(p) =>
        Outcome(Persist(setup, m.(state := m.state.(epoch := m.state.epoch.(pendingEnd := Some(p), ending := true))),
                        w.clock(SavingFirst)), None)
  }

  predicate AcknowledgesEnd(response: Response) {
    && response.decision.Some?
    && (response.decision.value.responseCode == "LEASE_ENDED" || response.decision.value.disposition.Ended?)
  }

  /** What endLocked does with the answer to the pending request. */
  function FinishEnd(setup: Setup, m: Machine, response: Response, w: World, posted: seq<PreparedRequest>): Answer {
    if Overloaded(response) then
      Answer(ScheduleRetry(setup, m, response.retryAfter, w.jitter, w.clock), Ok(Snapshot(IsEnding, None)), posted,
             None)
    else
      Finish(setup, Accept(setup, m, response, false, w.clock), response, w, posted)
  }

  /** Only an accepted acknowledgement ends the session. */
  function Finish(setup: Setup, accepted: Outcome, response: Response, w: World, posted: seq<PreparedRequest>): Answer {
    var after := accepted.machine;
    if accepted.failure.Some? then Caught(setup, after, accepted.failure.value, true, w, posted, Heard(response))
    else if after.state.epoch.revoked then
      Answer(after, Ok(SnapshotOf(setup.cfg, after.state, false, w.clock(Answering))), posted, Heard(response))
    else if !AcknowledgesEnd(response) then Answer(after, Err(InvalidState), posted, Heard(response))
    else
      var ended := after.state.epoch.(ending := false, ended := true, lease := None, leaseCompact := None,
                                      pendingEnd := None);
      Answer(Persist(setup, after.(state := after.state.(epoch := ended)), w.clock(SavingLast)),
             Ok(Snapshot(IsEnded, None)), posted, Heard(response))
  }

  function EndLocked(setup: Setup, m: Machine, reason: string, w: World): Answer {
    if m.state.epoch.ended || (m.state.epoch.lease.None? && m.state.epoch.pendingEnd.None?) then
      Answer(m, Ok(SnapshotOf(setup.cfg, m.state, false, w.clock(Answering))), [], None)
    else
      var begun := WithPendingEnd(setup, m, reason, w);
      if begun.failure.Some? then Answer(begun.machine, Err(begun.failure.value), [], None)
      else
        SendEnd(setup, begun.machine, begun.machine.state.epoch.pendingEnd.value, w)
  }

  /** The end request is sent and its answer handled. */
  function SendEnd(setup: Setup, m: Machine, request: PreparedRequest, w: World): Answer {
    var posted := Postings(setup.cfg, request, w);
    match Process(setup.cfg, m.ring, Final(setup.cfg, w.network), request)
    case Err(f) => Caught(setup, m, f, true, w, posted, None)
    case Ok(p) => FinishEnd(setup, m.(ring := p.ring), p.response, w, posted)
  }

  // ---- the public operations ----

  datatype Operation =
    | Load
    | AuthorizeWithKey(key: string, ask: Ask)
    | AuthorizeWithStoredKey(ask: Ask)
    | AuthorizeWithAccount(ask: Ask)
    | RenewIfDue(ask: Ask)
    | SynchronizeStatus
    | End(reason: string)
    | Restart

  predicate Authorizes(op: Operation) {
    op.AuthorizeWithKey? || op.AuthorizeWithStoredKey? || op.AuthorizeWithAccount?
  }

  /** Whether a signed KEY_NOT_FOUND erases the saved credential. */
  predicate Forgets(op: Operation) {
    op.AuthorizeWithKey? || op.AuthorizeWithStoredKey?
  }

  /** The machine from which the operation sends a request, if it sends one: the credential is saved first. */
  function Sender(setup: Setup, m: Machine, op: Operation, w: World): Option<Machine> {
    match op
    case AuthorizeWithKey(key, _) =>
      if key == "" || |key| > 160 then None
      else Some(Persist(setup, m.(state := m.state.(storedLicenseKey := Some(key))), w.clock(SavingFirst)))
    case AuthorizeWithStoredKey(_) => if m.state.storedLicenseKey.None? then None else Some(m)
    case AuthorizeWithAccount(_) => Some(m)
    case RenewIfDue(_) =>
      if m.state.epoch.lease.None? || SnapshotOf(setup.cfg, m.state, false, w.clock(Deciding)).standing != RenewalDue
         || m.state.nextRetry > w.clock(Deciding).wall
      then None else Some(m)
    case SynchronizeStatus => if m.state.epoch.lease.None? then None else Some(m)
    case Load => None
    case End(_) => None
    case Restart => None
  }

  /** The request an operation sends. */
  function RequestOf(setup: Setup, m: Machine, op: Operation, jti: string): Result<PreparedRequest> {
    var compact := if m.state.epoch.lease.Some? then Some(m.state.epoch.lease.value.compact) else None;
    match op
    case AuthorizeWithKey(key, ask) => Prepare(setup, "authorize", ask, Some(key), None, m.state, m.ring, jti)
    case AuthorizeWithStoredKey(ask) =>
      Prepare(setup, "authorize", ask, m.state.storedLicenseKey, None, m.state, m.ring, jti)
    case AuthorizeWithAccount(ask) => Prepare(setup, "authorize", ask, None, None, m.state, m.ring, jti)
    case RenewIfDue(ask) => Prepare(setup, "renew", ask, None, compact, m.state, m.ring, jti)
    case SynchronizeStatus => Prepare(setup, "status", Ask("", None, true), None, compact, m.state, m.ring, jti)
    case Load => Err(LocalFailure)
    case End(_) => Err(LocalFailure)
    case Restart => Err(LocalFailure)
  }

  /** What an operation that sends no request answers. */
  function LocalAnswer(cfg: Config, s: State, op: Operation, w: World): Result<Snapshot> {
    if op.AuthorizeWithKey? then Err(Configuration)
    else if op.AuthorizeWithStoredKey? then Ok(Snapshot(AuthDenied, None))
    else Ok(SnapshotOf(cfg, s, false, w.clock(if op.RenewIfDue? then Deciding else Answering)))
  }

  /** Everything an operation does once its reload succeeded. */
  function Perform(setup: Setup, m: Machine, op: Operation, w: World): Answer {
    if op.End? then EndLocked(setup, m, op.reason, w)
    else
      match Sender(setup, m, op, w)
      case None => Answer(m, LocalAnswer(setup.cfg, m.state, op, w), [], None)
      case Some(n) => Execute(setup, n, RequestOf(setup, n, op, w.jti), Authorizes(op), Forgets(op), w)
  }

  /** The state of a session that has no saved document. */
  function NewState(cfg: Config, r: Reading): State {
    var epoch := Epoch("", None, None, 0, 0, 0, false, false, false, false, None, None, None);
    var time := Checkpoint(r.wall, 0, r.monotonic, r.wall, r.boot, false);
    State(cfg.thumbprint, cfg.keyReference, None, [], 0, epoch, time, 0, 0, None, true)
  }

  /** A new process: memory sessions start over, persistent ones open the saved document and save it again. */
  function Restarted(setup: Setup, m: Machine, w: World): Outcome {
    var cfg := setup.cfg;
    var blank := Machine(NewState(cfg, w.clock(Deciding)), cfg.pinned, m.store, m.written);
    if !cfg.persistent then Outcome(blank, None)
    else if m.store.None? then Outcome(Persist(setup, blank, w.clock(SavingFirst)), None)
    else match Open(setup, m.store.value, cfg.thumbprint, cfg.keyReference, w.clock(Loading))
      case Err(f) => Outcome(m, Some(f))
      case Ok((s, ring)) => Outcome(Persist(setup, Machine(s, ring, m.store, m.written), w.clock(SavingFirst)), None)
  }

  /** How an operation gets the state back. */
  function Loaded(setup: Setup, m: Machine, op: Operation, w: World): Outcome {
    if op.Restart? then Restarted(setup, m, w) else Reload(setup, m, w.clock(Loading))
  }

  /** The public operations: reload, then act. */
  function Operate(setup: Setup, m: Machine, op: Operation, w: World): Answer {
    var loaded := Loaded(setup, m, op, w);
    if loaded.failure.Some? then Answer(loaded.machine, Err(loaded.failure.value), [], None)
    else Perform(setup, loaded.machine, op, w)
  }
}
