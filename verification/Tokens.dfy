/** The signed objects of the protocol and their verification against a ring of trusted keys. */
module Tokens {
  import opened Outcomes

  const MAX_TIME: int := 253402300799
  const MAX_SAFE: int := 9007199254740991

  predicate Timestamp(x: int) {
    0 <= x <= MAX_TIME
  }

  predicate SafeNonnegative(x: int) {
    0 <= x <= MAX_SAFE
  }

  predicate SafePositive(x: int) {
    0 < x <= MAX_SAFE
  }

  type Ring = map<string, string>

  // ---- the objects ----

  datatype Lease = Lease(
    compact: string, authorizationId: string, generation: int, issuedAt: int, expiresAt: int, renewAfter: int,
    deviceThumbprint: string, deviceId: string, hwidHash: string, signingKeyId: string)

  datatype Grant = GrantActive | GrantReclaimPending | GrantEnded | GrantRevoked

  datatype Status = Status(
    compact: string, authorizationId: string, deviceId: string, sequence: int, keysetSequence: int,
    minimumGeneration: int,
    deviceRevoked: bool, grant: Grant, revokedKids: seq<string>, issuedAt: int, nextUpdate: Option<int>)

  datatype Disposition = Unchanged | Revoked | Ended | Expired

  datatype Decision = Decision(compact: string, responseCode: string, disposition: Disposition, issuedAt: int)

  // ---- the tokens they come in ----

  /** What a compact token says. `formatted` stands for the checks on member names, types, identifiers and encodings. */
  datatype Claims =
    | LeaseClaims(authorizationId: string, deviceId: string, requestJti: string, thumbprint: string, hwidHash: string,
                  generation: int, policyRevision: int, issued: int, notBefore: int, expires: int, renewAfter: int)
    | StatusClaims(authorizationId: string, deviceId: string, requestJti: string, sequence: int, keysetSequence: int,
                   minimumGeneration: int, deviceRevoked: bool, grant: Grant, revokedKids: seq<string>, issued: int,
                   nextUpdate: Option<int>)
    | DecisionClaims(responseCode: string, requestJti: string, issued: int, disposition: Disposition,
                     claimedDevice: Option<string>, claimedThumbprint: Option<string>)
    | KeysetClaims(oldKid: string, newKid: string, newKey: string, issued: int, keysetSequence: int)

  datatype Token = Token(kid: string, issuer: string, audience: string, version: int, formatted: bool, claims: Claims)

  datatype Kind = LeaseKind | StatusKind | DecisionKind | KeysetKind

  /** The token type its header names. */
  function KindOf(c: Claims): Kind {
    match c
    case LeaseClaims(_, _, _, _, _, _, _, _, _, _, _) => LeaseKind
    case StatusClaims(_, _, _, _, _, _, _, _, _, _, _) => StatusKind
    case DecisionClaims(_, _, _, _, _, _) => DecisionKind
    case KeysetClaims(_, _, _, _, _) => KeysetKind
  }

  /** The client's configuration and installation key; parsing and signatures are left open. */
  datatype Config = Config(
    systemId: string,
    issuer: string,
    origin: string,
    pinned: Ring,
    persistent: bool,
    requireOnlineAfterReboot: bool,
    retries: nat,
    thumbprint: string,
    keyReference: string,
    parse: string -> Option<Token>,
    verifies: (string, string) -> bool,
    hwidHash: string -> string)

  /** The token, if its signing key is trusted, its signature verifies and its issuer is the expected one. */
  function VerifyJws(cfg: Config, compact: string, kind: Kind, trusted: Ring): Result<Token> {
    if compact == "" then Err(InvalidToken)
    else
      match cfg.parse(compact)
      case None => Err(InvalidToken)
      case Some(token) =>
        if KindOf(token.claims) != kind || token.kid !in trusted then Err(InvalidToken)
        else if !cfg.verifies(trusted[token.kid], compact) then Err(InvalidSignature)
        else if token.issuer != cfg.issuer || !token.formatted then Err(InvalidToken)
        else Ok(token)
  }

  predicate Audience(cfg: Config, token: Token) {
    token.audience == cfg.systemId && token.version == 1
  }

  /** An expectation that may be absent. */
  predicate Binds(expected: Option<string>, actual: string) {
    expected.Some? ==> expected.value == actual
  }

  predicate LeaseTimes(c: Claims)
    requires c.LeaseClaims?
  {
    && Timestamp(c.issued) && Timestamp(c.notBefore) && Timestamp(c.expires) && Timestamp(c.renewAfter)
    && c.notBefore == c.issued && c.issued <= c.renewAfter < c.expires && c.expires - c.issued <= 7776000
  }

  function VerifyLease(cfg: Config, compact: string, jti: Option<string>, hwid: Option<string>,
                       trusted: Ring): Result<Lease> {
    match VerifyJws(cfg, compact, LeaseKind, trusted)
    case Err(f) => Err(f)
    case Ok(token) =>
      var c := token.claims;
      if !Audience(cfg, token) || !Binds(jti, c.requestJti) || c.thumbprint != cfg.thumbprint
         || (hwid.Some? && c.hwidHash != cfg.hwidHash(hwid.value)) || |c.authorizationId| != 36
         || !SafePositive(c.generation) || !SafePositive(c.policyRevision) || !LeaseTimes(c)
      then Err(InvalidToken)
      else Ok(Lease(compact, c.authorizationId, c.generation, c.issued, c.expires, c.renewAfter,
                    c.thumbprint, c.deviceId, c.hwidHash, token.kid))
  }

  predicate SameGrant(s: Status, l: Lease) {
    s.authorizationId == l.authorizationId && s.deviceId == l.deviceId
  }

  function VerifyStatus(cfg: Config, compact: string, jti: Option<string>, lease: Option<Lease>,
                        trusted: Ring): Result<Status> {
    match VerifyJws(cfg, compact, StatusKind, trusted)
    case Err(f) => Err(f)
    case Ok(token) =>
      var c := token.claims;
      if !Audience(cfg, token) || !Binds(jti, c.requestJti)
         || !SafeNonnegative(c.sequence) || !SafeNonnegative(c.keysetSequence) || !SafePositive(c.minimumGeneration)
         || !Timestamp(c.issued) || (c.nextUpdate.Some? && !Timestamp(c.nextUpdate.value))
      then Err(InvalidToken)
      else
        var s := Status(compact, c.authorizationId, c.deviceId, c.sequence, c.keysetSequence, c.minimumGeneration,
                        c.deviceRevoked, c.grant, c.revokedKids, c.issued, c.nextUpdate);
        if lease.Some? && !SameGrant(s, lease.value) then Err(InvalidToken) else Ok(s)
  }

  function VerifyDecision(cfg: Config, compact: string, jti: string, lease: Option<Lease>, status: Option<Status>,
                          trusted: Ring): Result<Decision> {
    match VerifyJws(cfg, compact, DecisionKind, trusted)
    case Err(f) => Err(f)
    case Ok(token) =>
      var c := token.claims;
      if !Audience(cfg, token) || c.requestJti != jti || !Timestamp(c.issued)
         || (c.claimedDevice.Some? <==> c.claimedThumbprint.Some?)
      then Err(InvalidToken)
      else if c.claimedThumbprint.Some? && c.claimedThumbprint.value != cfg.thumbprint then Err(InvalidToken)
      else if c.claimedDevice.Some? && c.claimedDevice != ExpectedDevice(lease, status) then Err(InvalidToken)
      else Ok(Decision(compact, c.responseCode, c.disposition, c.issued))
  }

  function ExpectedDevice(lease: Option<Lease>, status: Option<Status>): Option<string> {
    if status.Some? then Some(status.value.deviceId) else if lease.Some? then Some(lease.value.deviceId) else None
  }

  // ---- what verification means ----

  /** The signer of a compact token, its key in the ring, and the issuer. */
  ghost predicate SignedBy(cfg: Config, compact: string, kid: string, ring: Ring) {
    && cfg.parse(compact).Some? && cfg.parse(compact).value.kid == kid && cfg.parse(compact).value.issuer == cfg.issuer
    && kid in ring && cfg.verifies(ring[kid], compact)
  }

  /** A well-formed token of one kind, signed by a trusted key, and its claims. */
  ghost predicate Says(cfg: Config, compact: string, c: Claims, ring: Ring) {
    && compact != "" && cfg.parse(compact).Some?
    && var token := cfg.parse(compact).value;
       token.claims == c && token.formatted && SignedBy(cfg, compact, token.kid, ring)
  }

  /** It is addressed to this system, in this version of the protocol. */
  ghost predicate Addressed(cfg: Config, compact: string) {
    && cfg.parse(compact).Some?
    && cfg.parse(compact).value.audience == cfg.systemId && cfg.parse(compact).value.version == 1
  }

  /** A token of the kind that is asked for names a trusted key, and the signature is not that key's. */
  ghost predicate Forged(cfg: Config, compact: string, kind: Kind, ring: Ring) {
    && compact != "" && cfg.parse(compact).Some?
    && var token := cfg.parse(compact).value;
       KindOf(token.claims) == kind && token.kid in ring && !cfg.verifies(ring[token.kid], compact)
  }

  /** A token verifies exactly when it says something of its kind; a bad signature is told from every other fault. */
  lemma JwsMeans(cfg: Config, compact: string, kind: Kind, ring: Ring)
    ensures var r := VerifyJws(cfg, compact, kind, ring);
            && (r.Ok? <==> exists c :: Says(cfg, compact, c, ring) && KindOf(c) == kind)
            && (r.Ok? ==> cfg.parse(compact) == Some(r.value) && Says(cfg, compact, r.value.claims, ring))
            && (r.Err? ==> r.failure == if Forged(cfg, compact, kind, ring) then InvalidSignature else InvalidToken)
  {
    var r := VerifyJws(cfg, compact, kind, ring);
    if r.Ok? {
      assert Says(cfg, compact, r.value.claims, ring);
    }
  }

  /** What the claims of a lease must satisfy to be a lease of this installation. */
  ghost predicate LeaseHolds(cfg: Config, c: Claims, jti: Option<string>, hwid: Option<string>) {
    && c.LeaseClaims? && c.thumbprint == cfg.thumbprint && |c.authorizationId| == 36
    && (jti == None || jti == Some(c.requestJti)) && (hwid.Some? ==> c.hwidHash == cfg.hwidHash(hwid.value))
    && 0 < c.generation <= 0x1f_ffff_ffff_ffff && 0 < c.policyRevision <= 0x1f_ffff_ffff_ffff
    && 0 <= c.issued == c.notBefore <= c.renewAfter < c.expires <= 2932897 * 86400 - 1
    && c.expires <= c.issued + 90 * 24 * 3600
  }

  /**
   * A lease verifies exactly when it is ours, signed by a trusted key, bound to the request, and lasts 90 days at most;
   * and then each of its fields is the claim of that name.
   */
  lemma LeaseMeans(cfg: Config, compact: string, jti: Option<string>, hwid: Option<string>, ring: Ring)
    ensures var r := VerifyLease(cfg, compact, jti, hwid, ring);
            && (r.Ok? <==>
                exists c ::
                  Says(cfg, compact, c, ring) && Addressed(cfg, compact) && LeaseHolds(cfg, c, jti, hwid))
            && (r.Ok? ==>
                  && SignedBy(cfg, compact, r.value.signingKeyId, ring) && r.value.compact == compact
                  && var c, l := cfg.parse(compact).value.claims, r.value;
                     && c.LeaseClaims? && l.authorizationId == c.authorizationId && l.deviceId == c.deviceId
                     && l.deviceThumbprint == c.thumbprint && l.hwidHash == c.hwidHash && l.generation == c.generation
                     && l.issuedAt == c.issued && l.expiresAt == c.expires && l.renewAfter == c.renewAfter)
            && (r.Err? ==> r.failure == if Forged(cfg, compact, LeaseKind, ring) then InvalidSignature
                                        else InvalidToken)
  {
    JwsMeans(cfg, compact, LeaseKind, ring);
  }

  ghost predicate StatusHolds(c: Claims, jti: Option<string>, lease: Option<Lease>) {
    && c.StatusClaims? && (jti == None || jti == Some(c.requestJti))
    && (lease.Some? ==> c.authorizationId == lease.value.authorizationId && c.deviceId == lease.value.deviceId)
    && 0 <= c.sequence <= 0x1f_ffff_ffff_ffff && 0 <= c.keysetSequence <= 0x1f_ffff_ffff_ffff
    && 0 < c.minimumGeneration <= 0x1f_ffff_ffff_ffff && 0 <= c.issued <= 2932897 * 86400 - 1
    && (c.nextUpdate.Some? ==> 0 <= c.nextUpdate.value <= 2932897 * 86400 - 1)
  }

  /**
   * A status verifies exactly when it is signed by a trusted key, bound to the request, and concerns the lease it is
   * checked against; and then each of its fields is the claim of that name.
   */
  lemma StatusMeans(cfg: Config, compact: string, jti: Option<string>, lease: Option<Lease>, ring: Ring)
    ensures var r := VerifyStatus(cfg, compact, jti, lease, ring);
            && (r.Ok? <==>
                exists c :: Says(cfg, compact, c, ring) && Addressed(cfg, compact) && StatusHolds(c, jti, lease))
            && (r.Ok? ==>
                  var c, s := cfg.parse(compact).value.claims, r.value;
                  && c.StatusClaims? && s.compact == compact
                  && s.authorizationId == c.authorizationId && s.deviceId == c.deviceId && s.sequence == c.sequence
                  && s.keysetSequence == c.keysetSequence && s.minimumGeneration == c.minimumGeneration
                  && s.deviceRevoked == c.deviceRevoked && s.grant == c.grant && s.revokedKids == c.revokedKids
                  && s.issuedAt == c.issued && s.nextUpdate == c.nextUpdate)
            && (r.Err? ==> r.failure == if Forged(cfg, compact, StatusKind, ring) then InvalidSignature
                                        else InvalidToken)
  {
    JwsMeans(cfg, compact, StatusKind, ring);
  }

  /** A decision names the device of the status, or else of the lease, or it names this installation, but not both. */
  ghost predicate DecisionHolds(cfg: Config, c: Claims, jti: string, lease: Option<Lease>, status: Option<Status>) {
    && c.DecisionClaims? && c.requestJti == jti && 0 <= c.issued <= 2932897 * 86400 - 1
    && (|| (c.claimedDevice == None && c.claimedThumbprint == Some(cfg.thumbprint))
        || (c.claimedThumbprint == None && status.Some? && c.claimedDevice == Some(status.value.deviceId))
        || (c.claimedThumbprint == None && status.None? && lease.Some?
            && c.claimedDevice == Some(lease.value.deviceId)))
  }

  /**
   * A decision verifies exactly when it is signed by a trusted key, bound to the request, and names this device or this
   * installation; and then each of its fields is the claim of that name.
   */
  lemma DecisionMeans(cfg: Config, compact: string, jti: string, lease: Option<Lease>, status: Option<Status>,
                      ring: Ring)
    ensures var r := VerifyDecision(cfg, compact, jti, lease, status, ring);
            && (r.Ok? <==> exists c ::
                  Says(cfg, compact, c, ring) && Addressed(cfg, compact) && DecisionHolds(cfg, c, jti, lease, status))
            && (r.Ok? ==>
                  var c, d := cfg.parse(compact).value.claims, r.value;
                  && c.DecisionClaims? && d.compact == compact && d.responseCode == c.responseCode
                  && d.disposition == c.disposition && d.issuedAt == c.issued)
            && (r.Err? ==> r.failure == if Forged(cfg, compact, DecisionKind, ring) then InvalidSignature
                                        else InvalidToken)
  {
    JwsMeans(cfg, compact, DecisionKind, ring);
  }

  /** r keeps every key of the ring q under its identifier. */
  ghost predicate Extends(r: Ring, q: Ring) {
    forall kid | kid in q :: kid in r && r[kid] == q[kid]
  }

  /** A lease that verified once still verifies, as the same lease, with any larger ring and without a request. */
  lemma LeaseStaysVerified(cfg: Config, compact: string, jti: Option<string>, hwid: Option<string>, small: Ring,
                           large: Ring)
    requires VerifyLease(cfg, compact, jti, hwid, small).Ok? && Extends(large, small)
    ensures VerifyLease(cfg, compact, None, None, large) == VerifyLease(cfg, compact, jti, hwid, small)
  {
  }

  /** So does a status, for the lease it concerns or for none. */
  lemma StatusStaysVerified(cfg: Config, compact: string, jti: Option<string>, was: Option<Lease>, lease: Option<Lease>,
                            small: Ring, large: Ring)
    requires var r := VerifyStatus(cfg, compact, jti, was, small);
             r.Ok? && (lease.Some? ==> SameGrant(r.value, lease.value))
    requires Extends(large, small)
    ensures VerifyStatus(cfg, compact, None, lease, large) == VerifyStatus(cfg, compact, jti, was, small)
  {
  }
}
