/** Requests, responses and the client that checks them against its ring of keys. */
module Exchange {
  import opened Outcomes
  import opened Tokens
  import opened KeyChain

  datatype PreparedRequest = PreparedRequest(
    endpoint: string, url: string, body: string, proof: string, requestJti: string,
    presentedLease: Option<string>, expectedHwid: Option<string>, keysetSequence: int, statusSequence: int)

  datatype Problem = Problem(status: int, code: string, formatted: bool)

  /** The parsed body of an HTTP response. `formatted` stands for the checks on member names and types. */
  datatype Body =
    | NotJson
    | Unframed(unframedProblem: Problem)
    | Framed(protocolVersion: int, requestJti: string, formatted: bool, links: seq<string>,
             lease: Option<string>, status: Option<string>, decision: Option<string>, problem: Option<Problem>)

  datatype Raw = TransportError | Received(httpStatus: int, body: Body, retryHeader: Option<int>)

  datatype Response = Response(
    httpStatus: int, lease: Option<Lease>, status: Option<Status>, decision: Option<Decision>, problem: Option<Problem>,
    keyTransitions: seq<string>, keysetSequence: int, retryAfter: Option<nat>)

  predicate Success(httpStatus: int) {
    200 <= httpStatus < 300
  }

  /** A Retry-After header counts up to one day. */
  function RetryAfter(header: Option<int>): (r: Option<nat>)
    ensures r.Some? ==> r.value <= 86400
  {
    if header.Some? && 0 <= header.value <= 86400 then Some(header.value) else None
  }

  predicate ProblemFits(p: Problem, httpStatus: int) {
    p.formatted && p.status == httpStatus && 100 <= p.status <= 599
  }

  // ---- process ----

  /** The lease or status a request or response may carry. */
  function Optionally<T>(compact: Option<string>, verify: string -> Result<T>): Result<Option<T>> {
    match compact
    case None => Ok(None)
    case Some(text) => match verify(text) { case Err(f) => Err(f) case Ok(v) => Ok(Some(v)) }
  }

  function Presented(cfg: Config, request: PreparedRequest, working: Ring): Result<Option<Lease>> {
    Optionally(request.presentedLease, text => VerifyLease(cfg, text, None, request.expectedHwid, working))
  }

  function NewLease(cfg: Config, body: Body, request: PreparedRequest, working: Ring): Result<Option<Lease>>
    requires body.Framed?
  {
    Optionally(body.lease, text => VerifyLease(cfg, text, Some(request.requestJti), request.expectedHwid, working))
  }

  function Newer<T>(newer: Option<T>, other: Option<T>): Option<T> {
    if newer.Some? then newer else other
  }

  function NewStatus(cfg: Config, body: Body, request: PreparedRequest, concerned: Option<Lease>,
                     chain: Chain): Result<Option<Status>>
    requires body.Framed?
  {
    match Optionally(body.status, text => VerifyStatus(cfg, text, Some(request.requestJti), concerned, chain.ring))
    case Err(f) => Err(f)
    case Ok(s) =>
      if s.Some? && (s.value.sequence < request.statusSequence || s.value.keysetSequence < chain.sequence)
      then Err(InvalidToken) else Ok(s)
  }

  function NewDecision(cfg: Config, body: Body, request: PreparedRequest, concerned: Option<Lease>,
                       status: Option<Status>, working: Ring)
    : Result<Option<Decision>>
    requires body.Framed?
  {
    Optionally(body.decision, text => VerifyDecision(cfg, text, request.requestJti, concerned, status, working))
  }

  /** A framed response and the ring it leaves. */
  datatype Processed = Processed(ring: Ring, response: Response)

  function ProcessFramed(cfg: Config, ring: Ring, raw: Raw, request: PreparedRequest): Result<Processed>
    requires raw.Received? && raw.body.Framed?
  {
    var body := raw.body;
    if body.protocolVersion != 1 || body.requestJti != request.requestJti || !body.formatted then Err(InvalidResponse)
    else match Replay(cfg, body.links, Chain(request.keysetSequence, ring))
      case Err(f) => Err(f)
      case Ok(chain) =>
    match Presented(cfg, request, chain.ring)
      case Err(f) => Err(f)
      case Ok(presented) =>
    match NewLease(cfg, body, request, chain.ring)
      case Err(f) => Err(f)
      case Ok(lease) =>
    match NewStatus(cfg, body, request, Newer(lease, presented), chain)
      case Err(f) => Err(f)
      case Ok(status) =>
    match NewDecision(cfg, body, request, Newer(lease, presented), status, chain.ring)
      case Err(f) => Err(f)
      case Ok(decision) =>
        if body.problem.Some? && !ProblemFits(body.problem.value, raw.httpStatus) then Err(InvalidResponse)
        else if Success(raw.httpStatus) && status.None? then Err(InvalidResponse)
        else if !Success(raw.httpStatus) && (decision.None? || body.problem.None?) then Err(InvalidResponse)
        else
          var sequence := if status.Some? && status.value.keysetSequence > chain.sequence
              then status.value.keysetSequence else chain.sequence;
          Ok(Processed(chain.ring, Response(raw.httpStatus, lease, status, decision, body.problem, body.links, sequence,
                                            RetryAfter(raw.retryHeader))))
  }

  function Process(cfg: Config, ring: Ring, raw: Raw, request: PreparedRequest): Result<Processed> {
    if raw.TransportError? then Err(Transport)
    else match raw.body
      case NotJson => Err(InvalidResponse)
      case Unframed(p) =>
        if Success(raw.httpStatus) || !ProblemFits(p, raw.httpStatus) then Err(InvalidResponse)
        else Ok(Processed(ring, Response(raw.httpStatus, None, None, None, Some(p), [], request.keysetSequence,
                                         RetryAfter(raw.retryHeader))))
      case Framed(_, _, _, _, _, _, _, _) => ProcessFramed(cfg, ring, raw, request)
  }

  /** What the tokens of a framed answer were verified to be, with the ring they were verified with. */
  datatype Evidence = Evidence(chain: Chain, presented: Option<Lease>, lease: Option<Lease>, status: Option<Status>,
                               decision: Option<Decision>)

  /**
   * The answer's links follow the ring, the lease the request presented still verifies, and each token in the answer
   * verifies for the request: the status and the decision for the new lease or else the presented one.
   */
  ghost predicate Proves(cfg: Config, ring: Ring, body: Body, request: PreparedRequest, e: Evidence)
    requires body.Framed?
  {
    var concerned := if e.lease.Some? then e.lease else e.presented;
    && Leads(cfg, body.links, Chain(request.keysetSequence, ring), e.chain)
    && (match request.presentedLease
        case None => e.presented.None?
        case Some(text) => e.presented.Some?
                           && VerifyLease(cfg, text, None, request.expectedHwid, e.chain.ring) == Ok(e.presented.value))
    && (match body.lease
        case None => e.lease.None?
        case Some(text) =>
          e.lease.Some? && VerifyLease(cfg, text, Some(request.requestJti), request.expectedHwid, e.chain.ring)
                           == Ok(e.lease.value))
    && (match body.status
        case None => e.status.None?
        case Some(text) =>
          e.status.Some? && VerifyStatus(cfg, text, Some(request.requestJti), concerned, e.chain.ring)
                            == Ok(e.status.value)
          && e.status.value.sequence >= request.statusSequence && e.status.value.keysetSequence >= e.chain.sequence)
    && (match body.decision
        case None => e.decision.None?
        case Some(text) =>
          e.decision.Some? && VerifyDecision(cfg, text, request.requestJti, concerned, e.status, e.chain.ring)
                              == Ok(e.decision.value))
  }

  /** A success says where the grant stands; a denial is signed and explained; an explanation fits the HTTP status. */
  predicate Complete(httpStatus: int, problem: Option<Problem>, e: Evidence) {
    && (problem.Some? ==> problem.value.formatted && problem.value.status == httpStatus && 100 <= httpStatus <= 599)
    && (if 200 <= httpStatus < 300 then e.status.Some? else e.decision.Some? && problem.Some?)
  }

  /** The answer is framed for this request, in this version of the protocol. */
  predicate Addresses(body: Body, request: PreparedRequest) {
    body.Framed? && body.protocolVersion == 1 && body.requestJti == request.requestJti && body.formatted
  }

  /** A header that names a number of seconds, up to a day. */
  predicate Waits(header: Option<int>, retryAfter: Option<nat>) {
    && (retryAfter.Some? ==> header == Some(retryAfter.value) && retryAfter.value <= 24 * 3600)
    && (retryAfter.None? ==> header.None? || header.value < 0 || header.value > 24 * 3600)
  }

  /** The response is what the evidence says, no more and no less, and the answer is complete. */
  ghost predicate Conveys(raw: Raw, e: Evidence, p: Processed)
    requires raw.Received? && raw.body.Framed?
  {
    && Complete(raw.httpStatus, raw.body.problem, e) && p.ring == e.chain.ring
    && p.response.lease == e.lease && p.response.status == e.status && p.response.decision == e.decision
    && p.response.keysetSequence == (if e.status.Some? then e.status.value.keysetSequence else e.chain.sequence)
    && p.response.httpStatus == raw.httpStatus && p.response.problem == raw.body.problem
    && p.response.keyTransitions == raw.body.links && Waits(raw.retryHeader, p.response.retryAfter)
  }

  /** A framed answer is processed exactly when it is framed for the request, proved and complete. */
  lemma FramedMeans(cfg: Config, ring: Ring, raw: Raw, request: PreparedRequest, p: Processed)
    requires raw.Received? && raw.body.Framed?
    ensures Process(cfg, ring, raw, request) == Ok(p)
            <==> && Addresses(raw.body, request)
                 && exists e :: Proves(cfg, ring, raw.body, request, e) && Conveys(raw, e, p)
  {
    if Addresses(raw.body, request) {
      if Process(cfg, ring, raw, request) == Ok(p) {
        var e := EvidenceOf(cfg, ring, raw, request);
        EvidenceDecides(cfg, ring, raw, request, e);
        JudgementConveys(raw, e, p);
      }
      forall e | Proves(cfg, ring, raw.body, request, e) && Conveys(raw, e, p)
        ensures Process(cfg, ring, raw, request) == Ok(p)
      {
        EvidenceDecides(cfg, ring, raw, request, e);
        JudgementConveys(raw, e, p);
      }
    }
  }

  lemma JudgementConveys(raw: Raw, e: Evidence, p: Processed)
    requires raw.Received? && raw.body.Framed?
    ensures Judgement(raw, e) == Ok(p) <==> Conveys(raw, e, p)
  {
  }

  /** What process makes of the evidence. */
  function Judgement(raw: Raw, e: Evidence): Result<Processed>
    requires raw.Received? && raw.body.Framed?
  {
    if !Complete(raw.httpStatus, raw.body.problem, e) then Err(InvalidResponse)
    else
      var sequence := if e.status.Some? then e.status.value.keysetSequence else e.chain.sequence;
      Ok(Processed(e.chain.ring, Response(raw.httpStatus, e.lease, e.status, e.decision, raw.body.problem,
                                          raw.body.links, sequence, RetryAfter(raw.retryHeader))))
  }

  lemma EvidenceDecides(cfg: Config, ring: Ring, raw: Raw, request: PreparedRequest, e: Evidence)
    requires raw.Received? && Addresses(raw.body, request) && Proves(cfg, ring, raw.body, request, e)
    ensures Process(cfg, ring, raw, request) == Judgement(raw, e)
  {
    StepsSucceed(cfg, ring, raw.body, request, e);
    StepsDecide(cfg, ring, raw, request, e);
  }

  /** The steps of process, each of which gives its part of the evidence. */
  ghost predicate Steps(cfg: Config, ring: Ring, body: Body, request: PreparedRequest, e: Evidence)
    requires body.Framed?
  {
    && Replay(cfg, body.links, Chain(request.keysetSequence, ring)) == Ok(e.chain)
    && Presented(cfg, request, e.chain.ring) == Ok(e.presented)
    && NewLease(cfg, body, request, e.chain.ring) == Ok(e.lease)
    && NewStatus(cfg, body, request, Newer(e.lease, e.presented), e.chain) == Ok(e.status)
    && NewDecision(cfg, body, request, Newer(e.lease, e.presented), e.status, e.chain.ring) == Ok(e.decision)
  }

  lemma StepsSucceed(cfg: Config, ring: Ring, body: Body, request: PreparedRequest, e: Evidence)
    requires body.Framed? && Proves(cfg, ring, body, request, e)
    ensures Steps(cfg, ring, body, request, e)
  {
    ReplayMeans(cfg, body.links, Chain(request.keysetSequence, ring), e.chain);
  }

  lemma StepsDecide(cfg: Config, ring: Ring, raw: Raw, request: PreparedRequest, e: Evidence)
    requires raw.Received? && Addresses(raw.body, request) && Steps(cfg, ring, raw.body, request, e)
    ensures Process(cfg, ring, raw, request) == Judgement(raw, e)
  {
  }

  lemma StepsProve(cfg: Config, ring: Ring, body: Body, request: PreparedRequest, e: Evidence)
    requires body.Framed? && Steps(cfg, ring, body, request, e)
    ensures Proves(cfg, ring, body, request, e)
  {
    ReplayMeans(cfg, body.links, Chain(request.keysetSequence, ring), e.chain);
  }

  /** A token does not verify. */
  predicate Unproved(r: Result<Processed>) {
    r == Err(InvalidToken) || r == Err(InvalidSignature)
  }

  /** When everything verifies there is evidence; otherwise process fails as the first token that does not. */
  lemma EvidenceOf(cfg: Config, ring: Ring, raw: Raw, request: PreparedRequest) returns (e: Evidence)
    requires raw.Received? && Addresses(raw.body, request)
    ensures Proves(cfg, ring, raw.body, request, e) || Unproved(Process(cfg, ring, raw, request))
  {
    var body, start := raw.body, Chain(request.keysetSequence, ring);
    e := Evidence(start, None, None, None, None);
    var replayed := Replay(cfg, body.links, start);
    if replayed.Err? {
      var n := ReplayFails(cfg, body.links, start);
    } else {
      e := VerifiedLeases(cfg, ring, raw, request, replayed.value);
      if Steps(cfg, ring, body, request, e) {
        StepsProve(cfg, ring, body, request, e);
      }
    }
  }

  lemma VerifiedLeases(cfg: Config, ring: Ring, raw: Raw, request: PreparedRequest, chain: Chain)
    returns (e: Evidence)
    requires raw.Received? && Addresses(raw.body, request)
    requires Replay(cfg, raw.body.links, Chain(request.keysetSequence, ring)) == Ok(chain)
    ensures Steps(cfg, ring, raw.body, request, e) || Unproved(Process(cfg, ring, raw, request))
  {
    var body := raw.body;
    e := Evidence(chain, None, None, None, None);
    var presented, lease := Presented(cfg, request, chain.ring), NewLease(cfg, body, request, chain.ring);
    if presented.Err? {
      LeaseMeans(cfg, request.presentedLease.value, None, request.expectedHwid, chain.ring);
    } else if lease.Err? {
      LeaseMeans(cfg, body.lease.value, Some(request.requestJti), request.expectedHwid, chain.ring);
    } else {
      e := VerifiedVerdicts(cfg, ring, raw, request, chain, presented.value, lease.value);
    }
  }

  lemma VerifiedVerdicts(cfg: Config, ring: Ring, raw: Raw, request: PreparedRequest, chain: Chain,
                         presented: Option<Lease>, lease: Option<Lease>) returns (e: Evidence)
    requires raw.Received? && Addresses(raw.body, request)
    requires Replay(cfg, raw.body.links, Chain(request.keysetSequence, ring)) == Ok(chain)
    requires Presented(cfg, request, chain.ring) == Ok(presented)
    requires NewLease(cfg, raw.body, request, chain.ring) == Ok(lease)
    ensures Steps(cfg, ring, raw.body, request, e) || Unproved(Process(cfg, ring, raw, request))
  {
    var body, concerned := raw.body, Newer(lease, presented);
    e := Evidence(chain, presented, lease, None, None);
    var status := NewStatus(cfg, body, request, concerned, chain);
    if status.Err? {
      StatusMeans(cfg, body.status.value, Some(request.requestJti), concerned, chain.ring);
    } else {
      var decision := NewDecision(cfg, body, request, concerned, status.value, chain.ring);
      if decision.Err? {
        DecisionMeans(cfg, body.decision.value, request.requestJti, concerned, status.value, chain.ring);
      } else {
        e := Evidence(chain, presented, lease, status.value, decision.value);
      }
    }
  }

  /** Problem Details without framing say nothing that is signed; they count only for a failure they fit. */
  lemma UnframedMeans(cfg: Config, ring: Ring, raw: Raw, request: PreparedRequest, p: Processed)
    requires raw.Received? && raw.body.Unframed?
    ensures Process(cfg, ring, raw, request) == Ok(p)
            <==> && p.ring == ring && p.response.httpStatus == raw.httpStatus
                 && !(200 <= raw.httpStatus < 300) && 100 <= raw.httpStatus <= 599
                 && p.response.problem == Some(raw.body.unframedProblem)
                 && raw.body.unframedProblem.formatted && raw.body.unframedProblem.status == raw.httpStatus
                 && p.response.lease.None? && p.response.status.None? && p.response.decision.None?
                 && p.response.keyTransitions == [] && p.response.keysetSequence == request.keysetSequence
                 && Waits(raw.retryHeader, p.response.retryAfter)
  {
  }

  /**
   * Why an answer is not processed: there is none; it is no answer to this request or is incomplete; or a token in it
   * does not verify.
   */
  lemma ProcessFails(cfg: Config, ring: Ring, raw: Raw, request: PreparedRequest)
    requires Process(cfg, ring, raw, request).Err?
    ensures var failure := Process(cfg, ring, raw, request).failure;
            if raw.TransportError? then failure == Transport
            else if !Addresses(raw.body, request)
                    || (exists e :: Proves(cfg, ring, raw.body, request, e))
                then failure == InvalidResponse
            else failure == InvalidToken || failure == InvalidSignature
  {
    if raw.Received? && Addresses(raw.body, request) {
      var e := EvidenceOf(cfg, ring, raw, request);
      forall f | Proves(cfg, ring, raw.body, request, f)
        ensures Process(cfg, ring, raw, request) == Judgement(raw, f)
      {
        EvidenceDecides(cfg, ring, raw, request, f);
      }
    }
  }

  /** A processed response has extended the ring by its links, and its sequence is theirs or that of its status. */
  lemma ProcessExtends(cfg: Config, ring: Ring, raw: Raw, request: PreparedRequest)
    requires Process(cfg, ring, raw, request).Ok?
    ensures var p := Process(cfg, ring, raw, request).value; var r := p.response;
            var replayed := Replay(cfg, r.keyTransitions, Chain(request.keysetSequence, ring));
            && Extends(p.ring, ring) && replayed.Ok? && replayed.value.ring == p.ring
            && r.keysetSequence >= replayed.value.sequence >= request.keysetSequence
            && r.keysetSequence == (if r.status.Some? then r.status.value.keysetSequence else replayed.value.sequence)
            && (r.status.Some? || r.decision.Some? || r.keyTransitions == [])
            && (Success(r.httpStatus) ==> r.status.Some?)
            && (r.retryAfter.Some? ==> r.retryAfter.value <= 86400)
  {
    if raw.body.Framed? {
      ReplayExtends(cfg, raw.body.links, Chain(request.keysetSequence, ring));
    }
  }

  /** The tokens of a response verify with the ring, for the request. */
  ghost predicate LeaseVerified(cfg: Config, request: PreparedRequest, r: Response, ring: Ring) {
    r.lease.Some? ==>
      VerifyLease(cfg, r.lease.value.compact, Some(request.requestJti), request.expectedHwid, ring) == Ok(r.lease.value)
  }

  ghost predicate StatusVerified(cfg: Config, request: PreparedRequest, r: Response, ring: Ring) {
    r.status.Some? ==>
      && (exists l ::
            && VerifyStatus(cfg, r.status.value.compact, Some(request.requestJti), l, ring) == Ok(r.status.value)
            && (r.lease.Some? ==> l == r.lease))
      && r.status.value.sequence >= request.statusSequence && r.keysetSequence >= r.status.value.keysetSequence
  }

  ghost predicate DecisionVerified(cfg: Config, request: PreparedRequest, r: Response, ring: Ring) {
    r.decision.Some? ==>
      exists l ::
        && VerifyDecision(cfg, r.decision.value.compact, request.requestJti, l, r.status, ring) == Ok(r.decision.value)
        && (r.lease.Some? ==> l == r.lease)
  }

  /** The tokens of a processed response verify with the extended ring, for this request. */
  lemma ProcessVerifies(cfg: Config, ring: Ring, raw: Raw, request: PreparedRequest)
    requires Process(cfg, ring, raw, request).Ok?
    ensures var p := Process(cfg, ring, raw, request).value;
            && LeaseVerified(cfg, request, p.response, p.ring)
            && StatusVerified(cfg, request, p.response, p.ring)
            && DecisionVerified(cfg, request, p.response, p.ring)
  {
    ProcessVerifiesLease(cfg, ring, raw, request);
    ProcessVerifiesStatus(cfg, ring, raw, request);
    ProcessVerifiesDecision(cfg, ring, raw, request);
  }

  lemma ProcessVerifiesLease(cfg: Config, ring: Ring, raw: Raw, request: PreparedRequest)
    requires Process(cfg, ring, raw, request).Ok?
    ensures var p := Process(cfg, ring, raw, request).value; LeaseVerified(cfg, request, p.response, p.ring)
  {
  }

  lemma ProcessVerifiesStatus(cfg: Config, ring: Ring, raw: Raw, request: PreparedRequest)
    requires Process(cfg, ring, raw, request).Ok?
    ensures var p := Process(cfg, ring, raw, request).value; StatusVerified(cfg, request, p.response, p.ring)
  {
    if raw.body.Framed? {
      var chain := Replay(cfg, raw.body.links, Chain(request.keysetSequence, ring)).value;
      var presented := Presented(cfg, request, chain.ring).value;
      var lease := NewLease(cfg, raw.body, request, chain.ring).value;
      StatusConcerns(cfg, raw.body, request, Newer(lease, presented), chain);
    }
  }

  lemma ProcessVerifiesDecision(cfg: Config, ring: Ring, raw: Raw, request: PreparedRequest)
    requires Process(cfg, ring, raw, request).Ok?
    ensures var p := Process(cfg, ring, raw, request).value; DecisionVerified(cfg, request, p.response, p.ring)
  {
    if raw.body.Framed? {
      var chain := Replay(cfg, raw.body.links, Chain(request.keysetSequence, ring)).value;
      var presented := Presented(cfg, request, chain.ring).value;
      var lease := NewLease(cfg, raw.body, request, chain.ring).value;
      var status := NewStatus(cfg, raw.body, request, Newer(lease, presented), chain).value;
      DecisionConcerns(cfg, raw.body, request, Newer(lease, presented), status, chain.ring);
    }
  }

  lemma DecisionConcerns(cfg: Config, body: Body, request: PreparedRequest, concerned: Option<Lease>,
                         status: Option<Status>, ring: Ring)
    requires body.Framed? && NewDecision(cfg, body, request, concerned, status, ring).Ok?
    ensures var d := NewDecision(cfg, body, request, concerned, status, ring).value;
            d.Some? ==> VerifyDecision(cfg, d.value.compact, request.requestJti, concerned, status, ring) == Ok(d.value)
  {
  }

  lemma StatusConcerns(cfg: Config, body: Body, request: PreparedRequest, concerned: Option<Lease>, chain: Chain)
    requires body.Framed? && NewStatus(cfg, body, request, concerned, chain).Ok?
    ensures var s := NewStatus(cfg, body, request, concerned, chain).value;
            s.Some? ==>
              VerifyStatus(cfg, s.value.compact, Some(request.requestJti), concerned, chain.ring) == Ok(s.value)
  {
  }

  // ---- the client ----

  class Client {
    const cfg: Config
    /** The trusted signing keys. */
    var keys: Ring

    constructor (c: Config)
      ensures cfg == c && keys == c.pinned
    {
      cfg := c;
      keys := c.pinned;
    }

    /** Rebuilds the ring from the pinned roots; a failure leaves it as it was. */
    method RestoreTransitions(links: seq<string>, expected: int) returns (failure: Option<Failure>)
      modifies this
      ensures match Restore(cfg, links, expected)
              case Ok(ring) => failure == None && keys == ring
              case Err(f) => failure == Some(f) && keys == old(keys)
    {
      var decoded, sequence := cfg.pinned, 0;
      var i := 0;
      while i < |links|
        invariant 0 <= i <= |links| && keys == old(keys)
        invariant Replay(cfg, links[..i], Chain(0, cfg.pinned)) == Ok(Chain(sequence, decoded))
      {
        assert links[..i + 1][..i] == links[..i];
        match Transition(cfg, links[i], sequence, decoded) {
          case Err(f) =>
            FailureStays(cfg, links, i + 1, Chain(0, cfg.pinned));
            return Some(InvalidState);
          case Ok(chain) =>
            sequence, decoded := chain.sequence, chain.ring;
        }
        i := i + 1;
      }
      assert links[..i] == links;
      if sequence != expected {
        return Some(InvalidState);
      }
      keys := decoded;
      return None;
    }

    /** The response with everything in it verified; only then does the ring grow. */
    method ProcessResponse(raw: Raw, request: PreparedRequest) returns (r: Result<Response>)
      modifies this
      ensures match Process(cfg, old(keys), raw, request)
              case Ok(p) => r == Ok(p.response) && keys == p.ring
              case Err(f) => r == Err(f) && keys == old(keys)
    {
      if raw.TransportError? {
        return Err(Transport);
      }
      match raw.body {
        case NotJson => return Err(InvalidResponse);
        case Unframed(p) =>
          if Success(raw.httpStatus) || !ProblemFits(p, raw.httpStatus) {
            return Err(InvalidResponse);
          }
          return Ok(Response(raw.httpStatus, None, None, None, Some(p), [], request.keysetSequence,
                             RetryAfter(raw.retryHeader)));
        case Framed(version, jti, formatted, links, _, _, _, problem) =>
          if version != 1 || jti != request.requestJti || !formatted {
            return Err(InvalidResponse);
          }
          var working, sequence, failure := Follow(links, request.keysetSequence);
          if failure.Some? {
            return Err(failure.value);
          }
          r := Examine(raw, request, working, sequence);
          if r.Ok? {
            keys := working;
          }
      }
    }

    /** The links of one response on top of the current ring. */
    method Follow(links: seq<string>, start: int) returns (working: Ring, sequence: int, failure: Option<Failure>)
      ensures match Replay(cfg, links, Chain(start, keys))
              case Ok(chain) => failure == None && chain == Chain(sequence, working)
              case Err(f) => failure == Some(f)
    {
      working, sequence, failure := keys, start, None;
      var i := 0;
      while i < |links|
        invariant 0 <= i <= |links|
        invariant Replay(cfg, links[..i], Chain(start, keys)) == Ok(Chain(sequence, working)) && failure == None
      {
        assert links[..i + 1][..i] == links[..i];
        match Transition(cfg, links[i], sequence, working) {
          case Err(f) =>
            FailureStays(cfg, links, i + 1, Chain(start, keys));
            failure := Some(f);
            return;
          case Ok(chain) =>
            sequence, working := chain.sequence, chain.ring;
        }
        i := i + 1;
      }
      assert links[..i] == links;
    }

    /** The tokens of a framed response, against the extended ring. */
    method Examine(raw: Raw, request: PreparedRequest, working: Ring, sequence: int) returns (r: Result<Response>)
      requires raw.Received? && raw.body.Framed?
      requires raw.body.protocolVersion == 1 && raw.body.requestJti == request.requestJti && raw.body.formatted
      requires Replay(cfg, raw.body.links, Chain(request.keysetSequence, keys)) == Ok(Chain(sequence, working))
      ensures match ProcessFramed(cfg, keys, raw, request)
              case Ok(p) => r == Ok(p.response) && p.ring == working
              case Err(f) => r == Err(f)
    {
      var body, chain := raw.body, Chain(sequence, working);
      var presented := Presented(cfg, request, working);
      if presented.Err? {
        return Err(presented.failure);
      }
      var lease := NewLease(cfg, body, request, working);
      if lease.Err? {
        return Err(lease.failure);
      }
      var status := NewStatus(cfg, body, request, Newer(lease.value, presented.value), chain);
      if status.Err? {
        return Err(status.failure);
      }
      var keysetSequence := sequence;
      if status.value.Some? && status.value.value.keysetSequence > keysetSequence {
        keysetSequence := status.value.value.keysetSequence;
      }
      var decision := NewDecision(cfg, body, request, Newer(lease.value, presented.value), status.value, working);
      if decision.Err? {
        return Err(decision.failure);
      }
      if body.problem.Some? && !ProblemFits(body.problem.value, raw.httpStatus) {
        return Err(InvalidResponse);
      }
      if Success(raw.httpStatus) && status.value.None? {
        return Err(InvalidResponse);
      }
      if !Success(raw.httpStatus) && (decision.value.None? || body.problem.None?) {
        return Err(InvalidResponse);
      }
      r := Ok(Response(raw.httpStatus, lease.value, status.value, decision.value, body.problem, body.links,
                       keysetSequence, RetryAfter(raw.retryHeader)));
    }

    /** Posts the request until the transport answers or the retries are used up, then processes the answer. */
    method Send(request: PreparedRequest, network: nat -> Raw)
      returns (r: Result<Response>, posted: seq<PreparedRequest>)
      modifies this
      ensures posted == seq(Posts(cfg, network), _ => request)
      ensures match Process(cfg, old(keys), Final(cfg, network), request)
              case Ok(p) => r == Ok(p.response) && keys == p.ring
              case Err(f) => r == Err(f) && keys == old(keys)
    {
      var raw := network(0);
      posted := [request];
      var attempt := 0;
      while raw.TransportError? && attempt < cfg.retries
        invariant 0 <= attempt <= cfg.retries && raw == network(attempt) && keys == old(keys)
        invariant posted == seq(attempt + 1, _ => request)
        invariant forall k | 0 <= k < attempt :: network(k).TransportError?
      {
        attempt := attempt + 1;
        raw := network(attempt);
        posted := posted + [request];
      }
      LastAttemptIs(cfg, network, attempt, 0);
      r := ProcessResponse(raw, request);
    }
  }

  /** The attempt whose answer counts: the first one that is not a transport error, or the last allowed. */
  function LastAttempt(cfg: Config, network: nat -> Raw, from: nat): nat
    requires from <= cfg.retries
    decreases cfg.retries - from
  {
    if from == cfg.retries || !network(from).TransportError? then from else LastAttempt(cfg, network, from + 1)
  }

  function Posts(cfg: Config, network: nat -> Raw): nat {
    LastAttempt(cfg, network, 0) + 1
  }

  function Final(cfg: Config, network: nat -> Raw): Raw {
    network(LastAttempt(cfg, network, 0))
  }

  /** A request is posted again after transport errors only, until there is an answer or the retries are used up. */
  lemma AttemptsMean(cfg: Config, network: nat -> Raw)
    ensures var n := Posts(cfg, network);
            && 1 <= n <= cfg.retries + 1 && Final(cfg, network) == network(n - 1)
            && (forall k | 0 <= k < n - 1 :: network(k).TransportError?)
            && (n <= cfg.retries ==> !network(n - 1).TransportError?)
  {
    AttemptsFrom(cfg, network, 0);
  }

  lemma {:induction false} AttemptsFrom(cfg: Config, network: nat -> Raw, from: nat)
    requires from <= cfg.retries
    ensures var last := LastAttempt(cfg, network, from);
            && from <= last <= cfg.retries && (forall k | from <= k < last :: network(k).TransportError?)
            && (last < cfg.retries ==> !network(last).TransportError?)
    decreases cfg.retries - from
  {
    if from < cfg.retries && network(from).TransportError? {
      AttemptsFrom(cfg, network, from + 1);
    }
  }

  lemma {:induction false} LastAttemptIs(cfg: Config, network: nat -> Raw, attempt: nat, from: nat)
    requires from <= attempt <= cfg.retries
    requires forall k | from <= k < attempt :: network(k).TransportError?
    requires attempt == cfg.retries || !network(attempt).TransportError?
    ensures LastAttempt(cfg, network, from) == attempt
    decreases attempt - from
  {
    if from < attempt {
      LastAttemptIs(cfg, network, attempt, from + 1);
    }
  }

  /** A link that fails makes the whole chain fail with the same error. */
  lemma {:induction false} FailureStays(cfg: Config, links: seq<string>, n: nat, start: Chain)
    requires n <= |links| && Replay(cfg, links[..n], start).Err?
    ensures Replay(cfg, links, start) == Replay(cfg, links[..n], start)
    decreases |links|
  {
    if n < |links| {
      assert links[..|links| - 1][..n] == links[..n];
      FailureStays(cfg, links[..|links| - 1], n, start);
    } else {
      assert links[..n] == links;
    }
  }
}
