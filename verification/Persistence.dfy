/** The session's state, the document it is saved as, and what a saved document must satisfy to be opened. */
module Persistence {
  import opened Outcomes
  import opened Tokens
  import opened KeyChain
  import opened Exchange
  import Base64

  /** The lease, its status, and how far its grant has come. */
  datatype Epoch = Epoch(
    authorizationId: string,
    leaseCompact: Option<string>,
    statusCompact: Option<string>,
    statusSequence: int,
    highestGeneration: int,
    minimumGeneration: int,
    ending: bool,
    ended: bool,
    revoked: bool,
    serverExpired: bool,
    pendingEnd: Option<PreparedRequest>,
    lease: Option<Lease>,
    status: Option<Status>)

  /** The protected time checkpoint. */
  datatype Checkpoint = Checkpoint(
    lastKnownGood: int,
    serverAnchor: int,
    anchorMonotonic: int,
    wallAtAnchor: int,
    bootIdentifier: string,
    clockUntrusted: bool)

  /** The fields of the session's state, the ones that change together grouped. */
  datatype State = State(
    thumbprint: string,
    keyReference: string,
    storedLicenseKey: Option<string>,
    keyTransitions: seq<string>,
    keysetSequence: int,
    epoch: Epoch,
    time: Checkpoint,
    retryFailures: int,
    nextRetry: int,
    stateSignature: Option<string>,
    allowsUnsigned: bool)

  datatype Json = Null | Text(text: string) | Number(number: int)

  /** The JSON object in the store. Version 3 has keys instead of a chain and a signature. */
  datatype Document = Document(
    version: int,
    systemId: string,
    thumbprint: string,
    keyReference: string,
    authorizationId: string,
    storedLicenseKey: Option<string>,
    keyTransitions: seq<string>,
    lease: Option<string>,
    status: Option<string>,
    statusSequence: int,
    keysetSequence: int,
    highestGeneration: int,
    minimumGeneration: int,
    lastKnownGood: int,
    serverAnchor: int,
    anchorMonotonic: int,
    wallAtAnchor: int,
    bootIdentifier: string,
    retryFailures: int,
    nextRetry: int,
    ending: bool,
    ended: bool,
    revoked: bool,
    serverExpired: bool,
    clockUntrusted: bool,
    pendingEnd: Option<map<string, Json>>,
    stateSignature: Option<string>,
    keys: Ring)

  /** What a request says, and which keys and sequences it says the client has. `fields` holds what is not listed. */
  datatype Content = Content(endpoint: string, credential: Option<string>, lease: Option<string>,
                             hwid: Option<string>, fields: string, kids: set<string>, keysetSequence: int,
                             statusSequence: int)

  /**
   * The client's configuration, the installation key's signature over documents, the length of a document's text, and
   * the text of requests.
   */
  datatype Setup = Setup(
    cfg: Config,
    sign: Document -> string,
    checks: (Document, string) -> bool,
    size: Document -> nat,
    render: Content -> string,
    proof: (Content, string) -> (string, string))

  // ---- the pending end request as JSON ----

  function TextOrNull(o: Option<string>): Json {
    if o.Some? then Text(o.value) else Null
  }

  function PreparedJson(p: PreparedRequest): map<string, Json> {
    map["endpoint" := Text(p.endpoint), "url" := Text(p.url), "body" := Text(p.body), "proof" := Text(p.proof),
        "request_jti" := Text(p.requestJti), "keyset_sequence" := Number(p.keysetSequence),
        "status_sequence" := Number(p.statusSequence), "presented_lease" := TextOrNull(p.presentedLease),
        "expected_hwid" := TextOrNull(p.expectedHwid)]
  }

  const PREPARED_MEMBERS: set<string> :=
    {"endpoint", "url", "body", "proof", "request_jti", "presented_lease", "expected_hwid", "keyset_sequence",
     "status_sequence"}

  function OptionalText(j: Json): Option<string>
    requires !j.Number?
  {
    if j.Null? then None else Some(j.text)
  }

  function ParsePrepared(m: map<string, Json>): Result<PreparedRequest> {
    if m.Keys != PREPARED_MEMBERS then Err(InvalidState)
    else if !m["endpoint"].Text? || !m["url"].Text? || !m["body"].Text? || !m["proof"].Text? || !m["request_jti"].Text?
            || m["presented_lease"].Number? || m["expected_hwid"].Number?
    then Err(InvalidState)
    else if !m["keyset_sequence"].Number? || !SafeNonnegative(m["keyset_sequence"].number)
            || !m["status_sequence"].Number? || !SafeNonnegative(m["status_sequence"].number)
    then Err(InvalidToken)
    else
      var p := PreparedRequest(
        m["endpoint"].text, m["url"].text, m["body"].text, m["proof"].text, m["request_jti"].text,
        OptionalText(m["presented_lease"]), OptionalText(m["expected_hwid"]),
        m["keyset_sequence"].number, m["status_sequence"].number);
      if p.endpoint != "end" || p.presentedLease.None? || p.url == "" || p.body == "" || p.proof == ""
          then Err(InvalidState)
      else Ok(p)
  }

  /** An end request that can be sent again after a restart. */
  predicate Retryable(p: PreparedRequest) {
    && p.endpoint == "end" && p.presentedLease.Some? && p.url != "" && p.body != "" && p.proof != ""
    && SafeNonnegative(p.keysetSequence) && SafeNonnegative(p.statusSequence)
  }

  /** Saving and loading gives exactly the same request, for exactly the retryable ones. */
  lemma PreparedRoundTrip(p: PreparedRequest)
    ensures Retryable(p) <==> ParsePrepared(PreparedJson(p)) == Ok(p)
    ensures ParsePrepared(PreparedJson(p)).Ok? ==> ParsePrepared(PreparedJson(p)) == Ok(p)
  {
    assert PreparedJson(p).Keys == PREPARED_MEMBERS;
  }

  // ---- documents ----

  function Serialize(cfg: Config, s: State, includeSignature: bool): Document {
    Document(
      4, cfg.systemId, s.thumbprint, s.keyReference, s.epoch.authorizationId, s.storedLicenseKey, s.keyTransitions,
      s.epoch.leaseCompact, s.epoch.statusCompact, s.epoch.statusSequence, s.keysetSequence, s.epoch.highestGeneration,
      s.epoch.minimumGeneration,
      s.time.lastKnownGood, s.time.serverAnchor, s.time.anchorMonotonic, s.time.wallAtAnchor, s.time.bootIdentifier,
      s.retryFailures, s.nextRetry,
      s.epoch.ending, s.epoch.ended, s.epoch.revoked, s.epoch.serverExpired, s.time.clockUntrusted,
      if s.epoch.pendingEnd.Some? then Some(PreparedJson(s.epoch.pendingEnd.value)) else None,
      if includeSignature then s.stateSignature else None, map[])
  }

  /** unb64 succeeds with this many bytes. */
  predicate Encodes(s: string, size: nat) {
    s != "" && Base64.Readable(s) && Base64.Encode(Base64.Decode(s)) == s && |Base64.Decode(s)| == size
  }

  /** What the clock shows at one moment: nothing is assumed about it. */
  datatype Reading = Reading(wall: int, monotonic: int, boot: string)

  /** Version 3 keeps the installation and the credential; everything that was not authenticated starts over. */
  function Migrated(d: Document, r: Reading): State {
    var epoch := Epoch("", None, None, 0, 0, 0, false, false, false, false, None, None, None);
    var time := Checkpoint(r.wall, 0, r.monotonic, r.wall, r.boot, false);
    State(d.thumbprint, d.keyReference, d.storedLicenseKey, [], 0, epoch, time, 0, 0, None, true)
  }

  /** The fields of a version 4 document, with its pending end request parsed. */
  function Described(d: Document, pending: Option<PreparedRequest>): State {
    var epoch := Epoch(
      d.authorizationId, d.lease, d.status, d.statusSequence, d.highestGeneration, d.minimumGeneration,
      d.ending, d.ended, d.revoked, d.serverExpired, pending, None, None);
    var time := Checkpoint(d.lastKnownGood, d.serverAnchor, d.anchorMonotonic, d.wallAtAnchor, d.bootIdentifier,
                           d.clockUntrusted);
    State(
      d.thumbprint, d.keyReference, d.storedLicenseKey, d.keyTransitions, d.keysetSequence, epoch, time,
      d.retryFailures, d.nextRetry, d.stateSignature, false)
  }

  /** Every pinned root is among the keys of a version 3 document. */
  predicate KeepsRoots(keys: Ring, pinned: Ring) {
    forall kid | kid in pinned :: kid in keys && keys[kid] == pinned[kid]
  }

  /** The state a document describes, before its tokens are verified. */
  function ParseState(cfg: Config, d: Document, r: Reading): Result<State> {
    if d.version != 3 && d.version != 4 then Err(InvalidState)
    else if d.version == 4 && d.stateSignature.None? then Err(InvalidState)
    else if !SafeNonnegative(d.statusSequence) || !SafeNonnegative(d.keysetSequence)
            || !SafeNonnegative(d.highestGeneration) || !SafeNonnegative(d.minimumGeneration)
    then Err(InvalidToken)
    else match (if d.pendingEnd.None? then Ok(None) else AsSome(ParsePrepared(d.pendingEnd.value)))
      case Err(f) => Err(f)
      case Ok(pending) =>
        if d.version == 3 && !KeepsRoots(d.keys, cfg.pinned) then Err(InvalidState)
        else
          var s := if d.version == 3 then Migrated(d, r) else Described(d, pending);
          if d.systemId == cfg.systemId && Valid(s) then Ok(s) else Err(InvalidState)
  }

  function AsSome<T>(r: Result<T>): Result<Option<T>> {
    match r
    case Err(f) => Err(f)
    case Ok(v) => Ok(Some(v))
  }

  predicate ValidTime(t: Checkpoint) {
    Timestamp(t.lastKnownGood) && Timestamp(t.serverAnchor) && Timestamp(t.wallAtAnchor) && t.anchorMonotonic >= 0
  }

  predicate ValidEpoch(e: Epoch) {
    && e.statusSequence <= MAX_SAFE && e.highestGeneration <= MAX_SAFE && e.minimumGeneration <= MAX_SAFE
    && |e.authorizationId| <= 256 && !(e.ended && e.revoked)
  }

  predicate ValidChain(links: seq<string>) {
    |links| <= 1024 && forall i | 0 <= i < |links| :: 0 < |links[i]| <= 65536
  }

  /** validateLoaded, the system identifier and the version apart. */
  predicate Valid(s: State) {
    && s.thumbprint != "" && ValidChain(s.keyTransitions) && s.keysetSequence <= MAX_SAFE
    && (!s.allowsUnsigned ==> s.stateSignature.Some? && s.stateSignature.value != "")
    && ValidEpoch(s.epoch) && ValidTime(s.time)
    && 0 <= s.retryFailures <= 30 && Timestamp(s.nextRetry)
    && (s.storedLicenseKey.Some? ==> |s.storedLicenseKey.value| <= 4096)
    && Encodes(s.thumbprint, 32) && (s.stateSignature.Some? ==> Encodes(s.stateSignature.value, 64))
  }

  /** The tokens of a state and the ring they were verified with. */
  datatype Runtime = Runtime(ring: Ring, lease: Option<Lease>, status: Option<Status>)

  predicate Agree(e: Epoch, keysetSequence: int, lease: Option<Lease>, status: Option<Status>) {
    && (lease.Some? ==> lease.value.generation == e.highestGeneration >= e.minimumGeneration)
    && (lease.Some? ==> lease.value.authorizationId == e.authorizationId)
    && (status.Some? ==> status.value.sequence == e.statusSequence && status.value.keysetSequence <= keysetSequence
                         && status.value.minimumGeneration == e.minimumGeneration)
    && (lease.Some? && status.Some? ==> SameGrant(status.value, lease.value))
    && (e.ending ==> e.pendingEnd.Some? && lease.Some?)
  }

  /** verifyRuntime, once the ring is restored. */
  function VerifyTokens(cfg: Config, e: Epoch, keysetSequence: int, ring: Ring): Result<Runtime> {
    match Optionally(e.leaseCompact, text => VerifyLease(cfg, text, None, None, ring))
    case Err(f) => Err(f)
    case Ok(lease) =>
    match Optionally(e.statusCompact, text => VerifyStatus(cfg, text, None, lease, ring))
    case Err(f) => Err(f)
    case Ok(status) =>
      if Agree(e, keysetSequence, lease, status) then Ok(Runtime(ring, lease, status)) else Err(InvalidState)
  }

  function VerifyRuntime(cfg: Config, s: State): Result<Runtime> {
    match Restore(cfg, s.keyTransitions, s.keysetSequence)
    case Err(f) => Err(f)
    case Ok(ring) => VerifyTokens(cfg, s.epoch, s.keysetSequence, ring)
  }

  function WithTokens(s: State, r: Runtime): State {
    s.(epoch := s.epoch.(lease := r.lease, status := r.status))
  }

  /** The largest document that is read back, in bytes. */
  const MAX_DOCUMENT: nat := 1048576

  /** A document whose text is neither empty nor too large. */
  predicate Bearable(setup: Setup, d: Document) {
    0 < setup.size(d) <= MAX_DOCUMENT
  }

  /** The checks of reload before the tokens are looked at. */
  function Authentic(setup: Setup, d: Document, thumbprint: string, keyReference: string, r: Reading): Result<State> {
    if !Bearable(setup, d) then Err(InvalidState)
    else match ParseState(setup.cfg, d, r)
      case Err(f) => Err(f)
      case Ok(s) =>
        if s.thumbprint != thumbprint || s.keyReference != keyReference then Err(InvalidState)
        else if !s.allowsUnsigned
                && (s.stateSignature.None? || !setup.checks(Serialize(setup.cfg, s, false), s.stateSignature.value))
        then Err(InvalidState)
        else Ok(s)
  }

  /** The state and ring that a document opens to. */
  function Open(setup: Setup, d: Document, thumbprint: string, keyReference: string, r: Reading)
    : Result<(State, Ring)>
  {
    match Authentic(setup, d, thumbprint, keyReference, r)
    case Err(f) => Err(f)
    case Ok(s) =>
    match VerifyRuntime(setup.cfg, s)
    case Err(f) => Err(f)
    case Ok(v) => Ok((WithTokens(s, v), v.ring))
  }

  /** The installation key signs what it verifies, and both encodings have their fixed sizes. */
  ghost predicate Sound(setup: Setup) {
    && (forall d :: setup.checks(d, setup.sign(d)) && Encodes(setup.sign(d), 64))
    && Encodes(setup.cfg.thumbprint, 32)
  }
}
