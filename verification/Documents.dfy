/** What any document in the store must say to be opened or reloaded, whoever wrote it, and what it opens to. */
module Documents {
  import opened Outcomes
  import opened Tokens
  import opened KeyChain
  import opened Exchange
  import opened Persistence
  import opened Session
  import opened Limbs
  import Base64

  // ---- its texts ----

  lemma EncodesMeans(s: string, size: nat)
    requires size > 0
    ensures Encodes(s, size) <==> exists data: seq<byte> :: |data| == size && Base64.Encode(data) == s
  {
    if Encodes(s, size) {
      var data: seq<byte> := Base64.Decode(s);
    }
    forall data: seq<byte> | |data| == size && Base64.Encode(data) == s
      ensures Encodes(s, size)
    {
      Base64.DecodeEncode(data);
      Base64.EncodeInAlphabet(data);
    }
  }

  /** The JSON object says exactly the request p, and p can be sent again. */
  ghost predicate Records(m: map<string, Json>, p: PreparedRequest) {
    && m.Keys == {"endpoint", "url", "body", "proof", "request_jti", "presented_lease", "expected_hwid",
                  "keyset_sequence", "status_sequence"}
    && p.endpoint == "end" && m["endpoint"] == Text("end")
    && m["url"] == Text(p.url) && p.url != "" && m["body"] == Text(p.body) && p.body != ""
    && m["proof"] == Text(p.proof) && p.proof != "" && m["request_jti"] == Text(p.requestJti)
    && p.presentedLease.Some? && m["presented_lease"] == Text(p.presentedLease.value)
    && m["expected_hwid"] == (if p.expectedHwid.Some? then Text(p.expectedHwid.value) else Null)
    && m["keyset_sequence"] == Number(p.keysetSequence) && 0 <= p.keysetSequence <= 0x1f_ffff_ffff_ffff
    && m["status_sequence"] == Number(p.statusSequence) && 0 <= p.statusSequence <= 0x1f_ffff_ffff_ffff
  }

  /** A saved end request is parsed exactly when it records one, and saving that one gives the same JSON object. */
  lemma PreparedMeans(m: map<string, Json>, p: PreparedRequest)
    ensures ParsePrepared(m) == Ok(p) <==> Records(m, p)
    ensures Records(m, p) ==> PreparedJson(p) == m
    ensures ParsePrepared(m).Err? ==>
              ParsePrepared(m).failure in {InvalidState, InvalidToken}
              && (ParsePrepared(m).failure == InvalidToken <==> Miscounts(m))
  {
    if Records(m, p) {
      assert PreparedJson(p).Keys == PREPARED_MEMBERS;
      assert forall key | key in m :: PreparedJson(p)[key] == m[key];
    }
  }

  /** Every member has its type except a sequence, which is no number or out of range. */
  ghost predicate Miscounts(m: map<string, Json>) {
    && m.Keys == PREPARED_MEMBERS
    && (forall key | key in {"endpoint", "url", "body", "proof", "request_jti"} :: m[key].Text?)
    && (forall key | key in {"presented_lease", "expected_hwid"} :: m[key].Text? || m[key].Null?)
    && exists key | key in {"keyset_sequence", "status_sequence"} ::
         !m[key].Number? || m[key].number < 0 || m[key].number > 0x1f_ffff_ffff_ffff
  }

  // ---- a version 4 document ----

  /** The document belongs to this installation. */
  predicate Belongs(setup: Setup, d: Document, thumbprint: string, keyReference: string) {
    && 0 < setup.size(d) <= 1024 * 1024
    && d.systemId == setup.cfg.systemId && d.thumbprint == thumbprint && d.keyReference == keyReference
  }

  /** The installation key signed everything in the document but the signature. */
  predicate Sealed(setup: Setup, d: Document) {
    && d.stateSignature.Some? && Encodes(d.stateSignature.value, 64)
    && setup.checks(d.(stateSignature := None, keys := map[]), d.stateSignature.value)
  }

  /** Its numbers and lengths are within the limits. */
  predicate Bounded(d: Document) {
    && Encodes(d.thumbprint, 32)
    && 0 <= d.statusSequence <= 0x1f_ffff_ffff_ffff && 0 <= d.keysetSequence <= 0x1f_ffff_ffff_ffff
    && 0 <= d.highestGeneration <= 0x1f_ffff_ffff_ffff && 0 <= d.minimumGeneration <= 0x1f_ffff_ffff_ffff
    && 0 <= d.lastKnownGood <= 2932897 * 86400 - 1 && 0 <= d.serverAnchor <= 2932897 * 86400 - 1
    && 0 <= d.wallAtAnchor <= 2932897 * 86400 - 1 && 0 <= d.anchorMonotonic
    && 0 <= d.retryFailures <= 30 && 0 <= d.nextRetry <= 2932897 * 86400 - 1
    && |d.authorizationId| <= 256 && (d.storedLicenseKey.Some? ==> |d.storedLicenseKey.value| <= 4096)
    && !(d.ended && d.revoked)
  }

  /** Its chain of links leads from the pinned roots to the ring, at its sequence. */
  ghost predicate Chains(cfg: Config, d: Document, ring: Ring) {
    && |d.keyTransitions| <= 1024 && (forall i | 0 <= i < |d.keyTransitions| :: 1 <= |d.keyTransitions[i]| <= 0x1_0000)
    && Leads(cfg, d.keyTransitions, Chain(0, cfg.pinned), Chain(d.keysetSequence, ring))
  }

  /** Its tokens verify with the ring, and agree with its high-water marks and flags. */
  ghost predicate Vouches(cfg: Config, d: Document, ring: Ring, lease: Option<Lease>, status: Option<Status>) {
    && (match d.lease
        case None => lease.None?
        case Some(text) => lease.Some? && VerifyLease(cfg, text, None, None, ring) == Ok(lease.value)
                           && lease.value.authorizationId == d.authorizationId
                           && d.minimumGeneration <= lease.value.generation == d.highestGeneration)
    && (match d.status
        case None => status.None?
        case Some(text) => status.Some? && VerifyStatus(cfg, text, None, lease, ring) == Ok(status.value)
                           && status.value.sequence == d.statusSequence
                           && status.value.keysetSequence <= d.keysetSequence
                           && status.value.minimumGeneration == d.minimumGeneration)
    && (d.ending ==> lease.Some? && d.pendingEnd.Some?)
  }

  /** Its pending end request, if it has one. */
  ghost predicate Awaits(d: Document, pending: Option<PreparedRequest>) {
    match d.pendingEnd
    case None => pending.None?
    case Some(m) => pending.Some? && Records(m, pending.value)
  }

  /** Each field of the state is the document's field of that name. */
  predicate Tells(d: Document, s: State) {
    && s.thumbprint == d.thumbprint && s.keyReference == d.keyReference && s.storedLicenseKey == d.storedLicenseKey
    && s.keyTransitions == d.keyTransitions && s.keysetSequence == d.keysetSequence
    && s.epoch.authorizationId == d.authorizationId && s.epoch.leaseCompact == d.lease
    && s.epoch.statusCompact == d.status && s.epoch.statusSequence == d.statusSequence
    && s.epoch.highestGeneration == d.highestGeneration && s.epoch.minimumGeneration == d.minimumGeneration
    && s.epoch.ending == d.ending && s.epoch.ended == d.ended && s.epoch.revoked == d.revoked
    && s.epoch.serverExpired == d.serverExpired
    && s.time.lastKnownGood == d.lastKnownGood && s.time.serverAnchor == d.serverAnchor
    && s.time.anchorMonotonic == d.anchorMonotonic && s.time.wallAtAnchor == d.wallAtAnchor
    && s.time.bootIdentifier == d.bootIdentifier && s.time.clockUntrusted == d.clockUntrusted
    && s.retryFailures == d.retryFailures && s.nextRetry == d.nextRetry
    && s.stateSignature == d.stateSignature && !s.allowsUnsigned
  }

  lemma AwaitsMeans(d: Document, pending: Option<PreparedRequest>)
    ensures Awaits(d, pending)
            <==> (if d.pendingEnd.None? then Ok(None) else AsSome(ParsePrepared(d.pendingEnd.value))) == Ok(pending)
  {
    if d.pendingEnd.Some? && pending.Some? {
      PreparedMeans(d.pendingEnd.value, pending.value);
    }
  }

  lemma DescribedMeans(d: Document, s: State)
    ensures s == Described(d, s.epoch.pendingEnd) <==> Tells(d, s) && s.epoch.lease.None? && s.epoch.status.None?
  {
  }

  /** What is signed is the document itself, without its signature. */
  lemma Reserialized(cfg: Config, d: Document, pending: Option<PreparedRequest>)
    requires d.version == 4 && d.systemId == cfg.systemId && Awaits(d, pending)
    ensures Serialize(cfg, Described(d, pending), false) == d.(stateSignature := None, keys := map[])
  {
    if d.pendingEnd.Some? {
      PreparedMeans(d.pendingEnd.value, pending.value);
    }
  }

  predicate ShortLinks(d: Document) {
    |d.keyTransitions| <= 1024 && forall i | 0 <= i < |d.keyTransitions| :: 1 <= |d.keyTransitions[i]| <= 0x1_0000
  }

  lemma ValidMeans(d: Document, pending: Option<PreparedRequest>)
    requires 0 <= d.statusSequence <= MAX_SAFE && 0 <= d.keysetSequence <= MAX_SAFE
    requires 0 <= d.highestGeneration <= MAX_SAFE && 0 <= d.minimumGeneration <= MAX_SAFE
    ensures Valid(Described(d, pending))
            <==> Bounded(d) && ShortLinks(d) && d.stateSignature.Some? && Encodes(d.stateSignature.value, 64)
  {
  }

  lemma ParsedMeans(cfg: Config, d: Document, r: Reading, u: State)
    requires d.version == 4
    ensures ParseState(cfg, d, r) == Ok(u)
            <==> && d.systemId == cfg.systemId && Bounded(d) && ShortLinks(d)
                 && d.stateSignature.Some? && Encodes(d.stateSignature.value, 64)
                 && Awaits(d, u.epoch.pendingEnd) && Tells(d, u) && u.epoch.lease.None? && u.epoch.status.None?
  {
    var pending := u.epoch.pendingEnd;
    AwaitsMeans(d, pending);
    DescribedMeans(d, u);
    if 0 <= d.statusSequence <= MAX_SAFE && 0 <= d.keysetSequence <= MAX_SAFE
       && 0 <= d.highestGeneration <= MAX_SAFE && 0 <= d.minimumGeneration <= MAX_SAFE {
      ValidMeans(d, pending);
    }
  }

  lemma AuthenticMeans(setup: Setup, d: Document, thumbprint: string, keyReference: string, r: Reading, u: State)
    requires d.version == 4
    ensures Authentic(setup, d, thumbprint, keyReference, r) == Ok(u)
            <==> && Belongs(setup, d, thumbprint, keyReference) && Sealed(setup, d) && Bounded(d) && ShortLinks(d)
                 && Awaits(d, u.epoch.pendingEnd) && Tells(d, u) && u.epoch.lease.None? && u.epoch.status.None?
  {
    ParsedMeans(setup.cfg, d, r, u);
    DescribedMeans(d, u);
    if d.systemId == setup.cfg.systemId && Awaits(d, u.epoch.pendingEnd) {
      Reserialized(setup.cfg, d, u.epoch.pendingEnd);
    }
  }

  lemma RuntimeMeans(cfg: Config, d: Document, u: State, v: Runtime)
    requires Tells(d, u) && Awaits(d, u.epoch.pendingEnd)
    ensures VerifyRuntime(cfg, u) == Ok(v)
            <==> && Leads(cfg, d.keyTransitions, Chain(0, cfg.pinned), Chain(d.keysetSequence, v.ring))
                 && Vouches(cfg, d, v.ring, v.lease, v.status)
  {
    RestoreMeans(cfg, d.keyTransitions, d.keysetSequence);
    var restored := Restore(cfg, d.keyTransitions, d.keysetSequence);
    if restored == Ok(v.ring) {
      TokensMean(cfg, d, u, v);
    }
  }

  lemma TokensMean(cfg: Config, d: Document, u: State, v: Runtime)
    requires Tells(d, u) && Awaits(d, u.epoch.pendingEnd)
    ensures VerifyTokens(cfg, u.epoch, u.keysetSequence, v.ring) == Ok(v)
            <==> Vouches(cfg, d, v.ring, v.lease, v.status)
  {
    if d.status.Some? {
      StatusMeans(cfg, d.status.value, None, v.lease, v.ring);
    }
  }

  /** The state before its tokens are verified. */
  function Bare(s: State): State {
    s.(epoch := s.epoch.(lease := None, status := None))
  }

  lemma OpenSplits(setup: Setup, d: Document, thumbprint: string, keyReference: string, r: Reading, s: State,
                   ring: Ring)
    requires d.version == 4
    ensures Open(setup, d, thumbprint, keyReference, r) == Ok((s, ring))
            <==> && Authentic(setup, d, thumbprint, keyReference, r) == Ok(Bare(s))
                 && VerifyRuntime(setup.cfg, Bare(s)) == Ok(Runtime(ring, s.epoch.lease, s.epoch.status))
  {
    var parsed := Authentic(setup, d, thumbprint, keyReference, r);
    if parsed.Ok? {
      AuthenticMeans(setup, d, thumbprint, keyReference, r, parsed.value);
      BareTokens(parsed.value, VerifyRuntime(setup.cfg, parsed.value), s, ring);
    }
  }

  lemma BareTokens(u: State, verified: Result<Runtime>, s: State, ring: Ring)
    requires u.epoch.lease.None? && u.epoch.status.None?
    ensures (verified.Ok? && (WithTokens(u, verified.value), verified.value.ring) == (s, ring))
            <==> (u == Bare(s) && verified == Ok(Runtime(ring, s.epoch.lease, s.epoch.status)))
  {
  }

  /**
   * Any version 4 document: it opens exactly when it belongs to the installation, is sealed by its key, keeps the
   * limits, and its chain, tokens and pending request check; and it opens to what it tells, with the tokens verified.
   */
  lemma VersionFourOpens(setup: Setup, d: Document, thumbprint: string, keyReference: string, r: Reading, s: State,
                         ring: Ring)
    requires d.version == 4
    ensures Open(setup, d, thumbprint, keyReference, r) == Ok((s, ring))
            <==> && Belongs(setup, d, thumbprint, keyReference) && Sealed(setup, d) && Bounded(d)
                 && Chains(setup.cfg, d, ring) && Vouches(setup.cfg, d, ring, s.epoch.lease, s.epoch.status)
                 && Awaits(d, s.epoch.pendingEnd) && Tells(d, s)
  {
    var u, v := Bare(s), Runtime(ring, s.epoch.lease, s.epoch.status);
    OpenSplits(setup, d, thumbprint, keyReference, r, s, ring);
    AuthenticMeans(setup, d, thumbprint, keyReference, r, u);
    assert Tells(d, u) <==> Tells(d, s);
    if Tells(d, u) && Awaits(d, u.epoch.pendingEnd) {
      RuntimeMeans(setup.cfg, d, u, v);
    }
  }

  // ---- a version 3 document ----

  /** Every sequence and generation in it is one. */
  predicate Counts(d: Document) {
    && 0 <= d.statusSequence <= 0x1f_ffff_ffff_ffff && 0 <= d.keysetSequence <= 0x1f_ffff_ffff_ffff
    && 0 <= d.highestGeneration <= 0x1f_ffff_ffff_ffff && 0 <= d.minimumGeneration <= 0x1f_ffff_ffff_ffff
  }

  /** A session that knows nothing but its installation and a credential, if there is one. */
  predicate Blank(thumbprint: string, keyReference: string, credential: Option<string>, r: Reading, s: State) {
    && s.thumbprint == thumbprint && s.keyReference == keyReference && s.storedLicenseKey == credential
    && s.keyTransitions == [] && s.keysetSequence == 0 && s.retryFailures == 0 && s.nextRetry == 0
    && s.epoch.lease.None? && s.epoch.leaseCompact.None? && s.epoch.status.None? && s.epoch.statusCompact.None?
    && s.epoch.authorizationId == "" && s.epoch.statusSequence == 0 && s.epoch.highestGeneration == 0
    && s.epoch.minimumGeneration == 0 && s.epoch.pendingEnd.None?
    && !s.epoch.ending && !s.epoch.ended && !s.epoch.revoked && !s.epoch.serverExpired
    && s.time.lastKnownGood == r.wall && s.time.wallAtAnchor == r.wall && s.time.serverAnchor == 0
    && s.time.anchorMonotonic == r.monotonic && s.time.bootIdentifier == r.boot && !s.time.clockUntrusted
    && s.stateSignature.None? && s.allowsUnsigned
  }

  lemma BlankMeans(d: Document, r: Reading, s: State)
    ensures Blank(d.thumbprint, d.keyReference, d.storedLicenseKey, r, s) <==> s == Migrated(d, r)
  {
  }

  lemma MigratedRuntime(cfg: Config, d: Document, r: Reading)
    ensures VerifyRuntime(cfg, Migrated(d, r)) == Ok(Runtime(cfg.pinned, None, None))
  {
  }

  /**
   * Any version 3 document: it opens exactly when it belongs to the installation, still holds the pinned roots and
   * keeps the limits; it needs no signature, and nothing but the credential is believed.
   */
  lemma VersionThreeOpens(setup: Setup, d: Document, thumbprint: string, keyReference: string, r: Reading, s: State,
                          ring: Ring)
    requires d.version == 3
    ensures Open(setup, d, thumbprint, keyReference, r) == Ok((s, ring))
            <==> && Belongs(setup, d, thumbprint, keyReference) && Counts(d) && Encodes(d.thumbprint, 32)
                 && (d.storedLicenseKey.Some? ==> |d.storedLicenseKey.value| <= 4096)
                 && (exists pending :: Awaits(d, pending)) && Extends(d.keys, setup.cfg.pinned)
                 && 0 <= r.wall <= 2932897 * 86400 - 1 && 0 <= r.monotonic
                 && ring == setup.cfg.pinned && Blank(d.thumbprint, d.keyReference, d.storedLicenseKey, r, s)
  {
    BlankMeans(d, r, s);
    MigratedRuntime(setup.cfg, d, r);
    var saved := if d.pendingEnd.None? then Ok(None) else AsSome(ParsePrepared(d.pendingEnd.value));
    if saved.Ok? {
      AwaitsMeans(d, saved.value);
    }
    forall pending | Awaits(d, pending)
      ensures saved == Ok(pending)
    {
      AwaitsMeans(d, pending);
    }
  }

  // ---- refusals ----

  /** No other version opens. What is wrong with the document's numbers is told from everything else. */
  lemma RefusalMeans(setup: Setup, d: Document, thumbprint: string, keyReference: string, r: Reading)
    ensures d.version != 3 && d.version != 4 ==> Open(setup, d, thumbprint, keyReference, r) == Err(InvalidState)
    ensures var a := Authentic(setup, d, thumbprint, keyReference, r);
            a.Err? ==>
              a.failure == if && 0 < setup.size(d) <= 1024 * 1024
                              && (d.version == 3 || (d.version == 4 && d.stateSignature.Some?))
                              && (!Counts(d) || (d.pendingEnd.Some? && Miscounts(d.pendingEnd.value)))
                           then InvalidToken else InvalidState
  {
    if d.pendingEnd.Some? {
      var parsed := ParsePrepared(d.pendingEnd.value);
      if parsed.Ok? {
        PreparedMeans(d.pendingEnd.value, parsed.value);
        RecordsCount(d.pendingEnd.value, parsed.value);
      } else {
        PreparedMeans(d.pendingEnd.value, PreparedRequest("", "", "", "", "", None, None, 0, 0));
      }
    }
  }

  lemma RecordsCount(m: map<string, Json>, p: PreparedRequest)
    requires Records(m, p)
    ensures !Miscounts(m)
  {
  }

  /** Why the tokens of a parsed document are refused: as the first one that does not verify, or for disagreeing. */
  lemma RuntimeFails(cfg: Config, s: State, ring: Ring)
    requires VerifyRuntime(cfg, s).Err?
    ensures var failure, lease, status := VerifyRuntime(cfg, s).failure, s.epoch.leaseCompact, s.epoch.statusCompact;
            if !Leads(cfg, s.keyTransitions, Chain(0, cfg.pinned), Chain(s.keysetSequence, ring))
            then (forall r :: !Leads(cfg, s.keyTransitions, Chain(0, cfg.pinned), Chain(s.keysetSequence, r)))
                 ==> failure == InvalidState
            else if lease.Some? && VerifyLease(cfg, lease.value, None, None, ring).Err?
                then failure == VerifyLease(cfg, lease.value, None, None, ring).failure
            else
              var held := if lease.Some? then Some(VerifyLease(cfg, lease.value, None, None, ring).value) else None;
              failure == if status.Some? && VerifyStatus(cfg, status.value, None, held, ring).Err?
                         then VerifyStatus(cfg, status.value, None, held, ring).failure else InvalidState
  {
    RestoreMeans(cfg, s.keyTransitions, s.keysetSequence);
  }

  /** A reload opens the document in the store for the installation in memory, or changes nothing but the ring. */
  lemma ReloadMeans(setup: Setup, m: Machine, r: Reading)
    requires setup.cfg.persistent
    ensures var o := Reload(setup, m, r);
            if m.store.None? then o == Outcome(m, Some(InvalidState))
            else
              var outcome := Open(setup, m.store.value, m.state.thumbprint, m.state.keyReference, r);
              && (o.failure.None? <==> outcome.Ok?)
              && (outcome.Ok? ==> o.machine == m.(state := outcome.value.0, ring := outcome.value.1))
              && (outcome.Err? ==>
                    && o.machine == m.(ring := o.machine.ring)
                    && (Restore(setup.cfg, m.state.keyTransitions, m.state.keysetSequence).Ok?
                        ==> o.failure == Some(outcome.failure)))
  {
  }

  /**
   * A version 4 document whose signature is missing or not the installation key's signature of just this document stops
   * every operation: nothing is sent, saved or believed.
   */
  lemma TamperedStops(setup: Setup, m: Machine, op: Operation, w: World)
    requires setup.cfg.persistent && m.store.Some? && m.store.value.version == 4 && !Sealed(setup, m.store.value)
    ensures var a := Operate(setup, m, op, w);
            a.result.Err? && a.posted == [] && a.heard.None? && a.machine == m.(ring := a.machine.ring)
  {
    var d, r := m.store.value, w.clock(Loading);
    if op.Restart? {
      TamperedStaysShut(setup, d, setup.cfg.thumbprint, setup.cfg.keyReference, r);
    } else {
      TamperedStaysShut(setup, d, m.state.thumbprint, m.state.keyReference, r);
      ReloadMeans(setup, m, r);
    }
  }

  lemma TamperedStaysShut(setup: Setup, d: Document, thumbprint: string, keyReference: string, r: Reading)
    requires d.version == 4 && !Sealed(setup, d)
    ensures Open(setup, d, thumbprint, keyReference, r).Err?
  {
    var outcome := Open(setup, d, thumbprint, keyReference, r);
    if outcome.Ok? {
      VersionFourOpens(setup, d, thumbprint, keyReference, r, outcome.value.0, outcome.value.1);
    }
  }

  /** The signature verifies for one document only. */
  ghost predicate Binding(setup: Setup, d: Document, signature: string) {
    forall e :: setup.checks(e, signature) ==> e == d
  }

  /** A document edited in the store, with a signature that was made for another content, never opens. */
  lemma EditedStaysShut(setup: Setup, saved: Document, edited: Document, thumbprint: string, keyReference: string,
                        r: Reading)
    requires edited.version == 4 && edited.stateSignature == saved.stateSignature && saved.stateSignature.Some?
    requires Binding(setup, saved.(stateSignature := None), saved.stateSignature.value)
    requires edited.(keys := map[]) != saved
    ensures Open(setup, edited, thumbprint, keyReference, r).Err?
  {
    var content := edited.(stateSignature := None, keys := map[]);
    assert edited.(keys := map[]) == content.(stateSignature := saved.stateSignature);
    TamperedStaysShut(setup, edited, thumbprint, keyReference, r);
  }

  // ---- saving, and starting anew ----

  /** The document says what the state says, and is signed. */
  ghost predicate Written(setup: Setup, s: State, d: Document) {
    && d.version == 4 && d.systemId == setup.cfg.systemId && d.keys == map[] && Tells(d, s)
    && d.pendingEnd == (if s.epoch.pendingEnd.Some? then Some(PreparedJson(s.epoch.pendingEnd.value)) else None)
    && d.stateSignature == Some(setup.sign(d.(stateSignature := None)))
  }

  /** What a save leaves: the state with a later checkpoint, signed and written. A memory session saves nothing. */
  ghost predicate SavedAs(setup: Setup, m: Machine, r: Reading, n: Machine) {
    if !setup.cfg.persistent then n == m
    else
      && n.ring == m.ring && n.store.Some? && n.written == m.written + [n.store.value]
      && n.state == m.state.(time := m.state.time.(lastKnownGood := n.state.time.lastKnownGood),
                             stateSignature := n.state.stateSignature, allowsUnsigned := false)
      && n.state.time.lastKnownGood >= m.state.time.lastKnownGood
      && n.state.time.lastKnownGood >= EffectiveNow(m.state.time, r)
      && n.state.time.lastKnownGood in {m.state.time.lastKnownGood, EffectiveNow(m.state.time, r)}
      && Written(setup, n.state, n.store.value)
  }

  lemma PersistMeans(setup: Setup, m: Machine, r: Reading, n: Machine)
    ensures n == Persist(setup, m, r) <==> SavedAs(setup, m, r, n)
  {
  }

  /**
   * A new process: a memory session, or one without a document, knows only its installation; any other opens the
   * document for the configured installation; a persistent one saves what it starts with.
   */
  lemma RestartMeans(setup: Setup, m: Machine, w: World)
    ensures var o, cfg := Restarted(setup, m, w), setup.cfg;
            if cfg.persistent && m.store.Some? then
              match Open(setup, m.store.value, cfg.thumbprint, cfg.keyReference, w.clock(Loading))
              case Err(f) => o == Outcome(m, Some(f))
              case Ok((s, ring)) =>
                o.failure.None?
                && SavedAs(setup, Machine(s, ring, m.store, m.written), w.clock(SavingFirst), o.machine)
            else
              && o.failure.None?
              && exists s ::
                   && Blank(cfg.thumbprint, cfg.keyReference, None, w.clock(Deciding), s)
                   && SavedAs(setup, Machine(s, cfg.pinned, m.store, m.written), w.clock(SavingFirst), o.machine)
  {
    var o, cfg := Restarted(setup, m, w), setup.cfg;
    var s := NewState(cfg, w.clock(Deciding));
    assert Blank(cfg.thumbprint, cfg.keyReference, None, w.clock(Deciding), s);
    PersistMeans(setup, Machine(s, cfg.pinned, m.store, m.written), w.clock(SavingFirst), o.machine);
    if cfg.persistent && m.store.Some? {
      match Open(setup, m.store.value, cfg.thumbprint, cfg.keyReference, w.clock(Loading))
      case Err(f) =>
      case Ok((s, ring)) => PersistMeans(setup, Machine(s, ring, m.store, m.written), w.clock(SavingFirst), o.machine);
    }
  }
}
