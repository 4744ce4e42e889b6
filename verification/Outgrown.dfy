/** Runs whose saved document does not open again: too many links, a link that is too long, links too long together. */
module Outgrown {
  import opened Limbs
  import opened Outcomes
  import opened Tokens
  import opened KeyChain
  import opened Exchange
  import opened Persistence
  import opened Session
  import opened Safety
  import opened Reopening
  import Base64

  /** The texts of the installation key's thumbprint and of a signature. */
  datatype Key = Key(thumbprint: string, signature: string)

  ghost predicate Proper(key: Key) {
    Encodes(key.thumbprint, 32) && Encodes(key.signature, 64)
  }

  // ---- a server that adds links ----

  function Blank(size: nat): seq<byte> {
    seq(size, _ => 0)
  }

  /** Link n of a chain whose links are a little longer than base. */
  function Link(base: nat, n: nat): string {
    seq(base + n, _ => 'k')
  }

  function Links(base: nat, n: nat): (links: seq<string>)
    ensures |links| == n
  {
    seq(n, i requires 0 <= i < n => Link(base, i + 1))
  }

  /** Links n + 1 to n + k. */
  function Added(base: nat, n: nat, k: nat): seq<string> {
    Links(base, n + k)[n..]
  }

  /** "no" is a denial; a text of base + n characters introduces key B, signed by the pinned key A, with sequence n. */
  function Parsed(key: Key, base: nat, text: string): Option<Token> {
    if text == "no" then
      Some(Token("A", "issuer", "system", 1, true,
                 DecisionClaims("DENIED", "jti", 0, Unchanged, None, Some(key.thumbprint))))
    else if |text| > base then Some(Token("A", "issuer", "system", 1, true,
                                          KeysetClaims("A", "B", "key B", 0, |text| - base)))
    else None
  }

  function Total(links: seq<string>): nat {
    if |links| == 0 then 0 else Total(links[..|links| - 1]) + |links[|links| - 1]|
  }

  /** A document is a thousand characters longer than its links. */
  function Example(key: Key, base: nat): Setup {
    var cfg := Config("system", "issuer", "https://host", map["A" := "key A"], true, false, 0, key.thumbprint,
                      "reference", (text: string) => Parsed(key, base, text),
                      (publicKey: string, text: string) => true, (hwid: string) => "");
    Setup(cfg, (d: Document) => key.signature, (d: Document, signature: string) => true,
          (d: Document) => 1000 + Total(d.keyTransitions),
          (content: Content) => "",
          (content: Content, jti: string) => ("", ""))
  }

  const OPERATION := AuthorizeWithAccount(Ask("", Some("hwid"), true))

  /** The answer to the request: a signed denial, with links n + 1 to n + k. */
  function Denial(base: nat, n: nat, k: nat): Raw {
    Exchange.Raw.Received(
      403, Framed(1, "jti", true, Added(base, n, k), None, None, Some("no"), Some(Problem(403, "DENIED", true))), None)
  }

  function Denied(base: nat, n: nat, k: nat): Response {
    Response(403, None, None, Some(Decision("no", "DENIED", Unchanged, 0)), Some(Problem(403, "DENIED", true)),
             Added(base, n, k), n + k, None)
  }

  function Around(base: nat, n: nat, k: nat): World {
    World((moment: Moment) => Reading(1000, 0, "boot"), (attempt: nat) => Denial(base, n, k), "jti", 0)
  }

  // ---- the chain ----

  function RingAfter(n: nat): Ring {
    if n == 0 then map["A" := "key A"] else map["A" := "key A", "B" := "key B"]
  }

  lemma {:induction false} LinksReplay(key: Key, base: nat, n: nat)
    requires n <= MAX_SAFE
    ensures Replay(Example(key, base).cfg, Links(base, n), Chain(0, Example(key, base).cfg.pinned))
            == Ok(Chain(n, RingAfter(n)))
  {
    if n > 0 {
      LinksReplay(key, base, n - 1);
      assert Links(base, n)[..n - 1] == Links(base, n - 1);
      LinkFollows(key, base, n);
    }
  }

  lemma LinkFollows(key: Key, base: nat, n: nat)
    requires 0 < n <= MAX_SAFE
    ensures Transition(Example(key, base).cfg, Link(base, n), n - 1, RingAfter(n - 1)) == Ok(Chain(n, RingAfter(n)))
  {
    LinkParses(key, base, n);
    var token := Parsed(key, base, Link(base, n)).value;
    LinkVerifies(key, base, n, token);
    assert RingAfter(n - 1)["B" := "key B"] == RingAfter(n);
  }

  lemma LinkParses(key: Key, base: nat, n: nat)
    requires n > 0
    ensures Parsed(key, base, Link(base, n))
            == Some(Token("A", "issuer", "system", 1, true, KeysetClaims("A", "B", "key B", 0, n)))
    ensures Link(base, n) != ""
  {
    assert Link(base, n)[0] == 'k' && "no"[0] == 'n';
  }

  lemma LinkVerifies(key: Key, base: nat, n: nat, token: Token)
    requires n > 0 && Parsed(key, base, Link(base, n)) == Some(token) && token.kid == "A" && token.issuer == "issuer"
    requires token.formatted
    requires KindOf(token.claims) == KeysetKind && Link(base, n) != ""
    ensures VerifyJws(Example(key, base).cfg, Link(base, n), KeysetKind, RingAfter(n - 1)) == Ok(token)
  {
  }

  lemma AddedLinks(base: nat, n: nat, k: nat)
    ensures Links(base, n) + Added(base, n, k) == Links(base, n + k)
  {
  }

  lemma AddedReplay(key: Key, base: nat, n: nat, k: nat)
    requires n + k <= MAX_SAFE
    ensures Replay(Example(key, base).cfg, Added(base, n, k), Chain(n, RingAfter(n)))
            == Ok(Chain(n + k, RingAfter(n + k)))
    ensures Links(base, n) + Added(base, n, k) == Links(base, n + k)
  {
    LinksReplay(key, base, n);
    LinksReplay(key, base, n + k);
    AddedLinks(base, n, k);
    ReplayRest(Example(key, base).cfg, Links(base, n), Added(base, n, k), Links(base, n + k),
               Chain(0, Example(key, base).cfg.pinned), Chain(n, RingAfter(n)), Chain(n + k, RingAfter(n + k)));
  }

  lemma ReplayRest(cfg: Config, known: seq<string>, added: seq<string>, all: seq<string>, start: Chain, middle: Chain,
                   end: Chain)
    requires all == known + added && Replay(cfg, known, start) == Ok(middle) && Replay(cfg, all, start) == Ok(end)
    ensures Replay(cfg, added, middle) == Ok(end)
  {
    ReplayAppend(cfg, known, added, start);
  }

  lemma ChainFits(base: nat, n: nat)
    requires n <= 1024 && base + n <= 65536
    ensures ValidChain(Links(base, n))
  {
  }

  /** The sizes of the two examples. */
  lemma Sizes(base: nat, n: nat)
    requires base == 60000 && n == 10
    ensures ValidChain(Links(base, n)) && 1000 + Total(Links(base, n)) <= MAX_DOCUMENT
    ensures ValidChain(Links(base, n + n)) && 1000 + Total(Links(base, n + n)) > MAX_DOCUMENT
  {
    ChainFits(base, n);
    ChainFits(base, n + n);
    TotalLinks(base, n);
    TotalLinks(base, n + n);
  }

  lemma {:induction false} TotalLinks(base: nat, n: nat)
    ensures 2 * Total(Links(base, n)) == 2 * (n * base) + n * (n + 1)
  {
    if n > 0 {
      TotalLinks(base, n - 1);
      assert Links(base, n)[..n - 1] == Links(base, n - 1);
      OneMore(base, n);
    }
  }

  lemma OneMore(base: nat, n: nat)
    requires n > 0
    ensures 2 * ((n - 1) * base) + (n - 1) * n + 2 * (base + n) == 2 * (n * base) + n * (n + 1)
  {
    assert (n - 1) * base + base == n * base;
  }

  lemma ExampleSound(key: Key, base: nat)
    requires Proper(key)
    ensures Sound(Example(key, base))
  {
  }

  /** There are such texts. */
  lemma SomeKey() returns (key: Key)
    ensures Proper(key)
  {
    key := Key(Base64.Encode(Blank(32)), Base64.Encode(Blank(64)));
    BlankEncodes(32);
    BlankEncodes(64);
  }

  lemma BlankEncodes(size: nat)
    requires size > 0
    ensures Encodes(Base64.Encode(Blank(size)), size)
  {
    Base64.EncodeInAlphabet(Blank(size));
    Base64.DecodeEncode(Blank(size));
  }

  // ---- one operation ----

  /** A session without a lease whose chain has n links. */
  ghost predicate Stage(key: Key, base: nat, n: nat, m: Machine) {
    && Proper(key) && Fine(Example(key, base), m) && m.state.epoch.lease.None?
    && m.state.keyTransitions == Links(base, n) && m.state.keysetSequence == n
  }

  lemma DenialVerifies(key: Key, base: nat, n: nat)
    ensures VerifyDecision(Example(key, base).cfg, "no", "jti", None, None, RingAfter(n))
            == Ok(Decision("no", "DENIED", Unchanged, 0))
  {
    assert "A" in RingAfter(n);
  }

  lemma ProcessDenial(key: Key, base: nat, n: nat, k: nat, request: PreparedRequest)
    requires n + k <= MAX_SAFE
    requires request.requestJti == "jti" && request.presentedLease.None? && request.keysetSequence == n
    ensures Process(Example(key, base).cfg, RingAfter(n), Denial(base, n, k), request)
            == Ok(Processed(RingAfter(n + k), Denied(base, n, k)))
  {
    AddedReplay(key, base, n, k);
    DenialVerifies(key, base, n + k);
    ProcessTokens(Example(key, base).cfg, RingAfter(n), Denial(base, n, k), request, Chain(n + k, RingAfter(n + k)),
                  Denied(base, n, k));
  }

  /** A denial with a verified decision is processed to just that. */
  lemma ProcessTokens(cfg: Config, ring: Ring, raw: Raw, request: PreparedRequest, chain: Chain, response: Response)
    requires raw.Received? && raw.body.Framed? && raw.httpStatus == 403 && raw.body.protocolVersion == 1
    requires raw.body.formatted
    requires raw.body.requestJti == request.requestJti && request.presentedLease.None?
    requires raw.body.lease.None? && raw.body.status.None? && raw.body.decision.Some? && raw.retryHeader.None?
    requires raw.body.problem.Some? && ProblemFits(raw.body.problem.value, 403)
    requires Replay(cfg, raw.body.links, Chain(request.keysetSequence, ring)) == Ok(chain)
    requires response == Response(403, None, None, response.decision, raw.body.problem, raw.body.links, chain.sequence,
                                  None)
    requires response.decision.Some?
    requires VerifyDecision(cfg, raw.body.decision.value, request.requestJti, None, None, chain.ring)
            == Ok(response.decision.value)
    ensures Process(cfg, ring, raw, request) == Ok(Processed(chain.ring, response))
  {
  }

  /** The denial is accepted, with its links. */
  lemma AcceptDenial(key: Key, base: nat, n: nat, k: nat, m: Machine)
    requires n + k <= MAX_SAFE && m.state.keyTransitions == Links(base, n) && m.state.keysetSequence == n
    ensures var o := Accept(Example(key, base), m, Denied(base, n, k), true, Around(base, n, k).clock);
            && o.failure.None? && o.machine.state.keyTransitions == Links(base, n + k)
                && o.machine.state.keysetSequence == n + k
            && o.machine.state.epoch == m.state.epoch
  {
    AddedReplay(key, base, n, k);
    LinksReplay(key, base, n + k);
  }

  /** One authorize request adds the links to the saved chain. */
  lemma Grows(key: Key, base: nat, n: nat, k: nat, m: Machine)
    requires n + k <= MAX_SAFE && Stage(key, base, n, m) && WithinLimits(Example(key, base), m.store.value)
    ensures var w := Around(base, n, k);
            var a := Operate(Example(key, base), m, OPERATION, w);
            Stage(key, base, n + k, a.machine) && Benignly()(m, Step(OPERATION, w), a)
  {
    var setup, w := Example(key, base), Around(base, n, k);
    ExampleSound(key, base);
    ReloadsExactly(setup, m, w.clock(Loading));
    ReloadKeepsState(setup, m, w.clock(Loading));
    var loaded := Reload(setup, m, w.clock(Loading)).machine;
    LinksReplay(key, base, n);
    assert loaded.ring == RingAfter(n);
    Executed(key, base, n, k, loaded);
    OperateFine(setup, m, OPERATION, w);
  }

  lemma Executed(key: Key, base: nat, n: nat, k: nat, m: Machine)
    requires n + k <= MAX_SAFE && m.state.keyTransitions == Links(base, n) && m.state.keysetSequence == n
    requires m.ring == RingAfter(n) && SafeNonnegative(m.state.epoch.statusSequence) && m.state.epoch.lease.None?
    ensures var w := Around(base, n, k);
            var a := Perform(Example(key, base), m, OPERATION, w);
            && a.machine.state.keyTransitions == Links(base, n + k) && a.machine.state.keysetSequence == n + k
            && a.machine.state.epoch == m.state.epoch && a.heard == Some(Denied(base, n, k))
  {
    var setup, w := Example(key, base), Around(base, n, k);
    var request := RequestOf(setup, m, OPERATION, w.jti);
    var received := m.(ring := RingAfter(n + k));
    Answered(key, base, n, k, m, request);
    AcceptDenial(key, base, n, k, received);
    Concluded(setup, Accept(setup, received, Denied(base, n, k), true, w.clock).machine, Denied(base, n, k), w);
    Sent(setup, m, request, received, Denied(base, n, k), w);
  }

  lemma Answered(key: Key, base: nat, n: nat, k: nat, m: Machine, request: Result<PreparedRequest>)
    requires n + k <= MAX_SAFE && m.ring == RingAfter(n) && m.state.keysetSequence == n
    requires SafeNonnegative(m.state.epoch.statusSequence)
    requires request == RequestOf(Example(key, base), m, OPERATION, Around(base, n, k).jti)
    ensures var setup, w := Example(key, base), Around(base, n, k);
            request.Ok? && AfterProcess(setup.cfg, m, m.(ring := RingAfter(n + k)), Denied(base, n, k), request.value,
                                        Final(setup.cfg, w.network))
  {
    var setup, w := Example(key, base), Around(base, n, k);
    assert request.Ok? && request.value.requestJti == "jti" && request.value.presentedLease.None?
        && request.value.keysetSequence == n;
    assert Final(setup.cfg, w.network) == Denial(base, n, k);
    ProcessDenial(key, base, n, k, request.value);
  }

  /** Nothing more changes after the denial is accepted. */
  lemma Concluded(setup: Setup, m: Machine, response: Response, w: World)
    requires response.httpStatus == 403 && response.decision.Some? && response.decision.value.responseCode == "DENIED"
    ensures Conclude(setup, m, response, true, false, w).0 == m
  {
  }

  lemma Sent(setup: Setup, m: Machine, request: Result<PreparedRequest>, received: Machine, response: Response,
             w: World)
    requires request.Ok? && Signed(response)
    requires AfterProcess(setup.cfg, m, received, response, request.value, Final(setup.cfg, w.network))
    requires var o := Accept(setup, received, response, true, w.clock);
             o.failure.None? && Conclude(setup, o.machine, response, true, false, w).0 == o.machine
    ensures var a := Execute(setup, m, request, true, false, w);
            a.machine == Accept(setup, received, response, true, w.clock).machine && a.heard == Some(response)
  {
  }

  // ---- the two runs ----

  lemma Begins(key: Key, base: nat)
    requires Proper(key)
    ensures var setup, first := Example(key, base), Around(base, 0, 0);
            && Starts(setup, None, first) && ClockInRange(first.clock) && Stage(key, base, 0, Start(setup, None, first))
            && WithinLimits(setup, Start(setup, None, first).store.value)
  {
    StartFine(Example(key, base), None, Around(base, 0, 0));
  }

  /** Beyond the limits the next reload fails, and so does every later process. */
  lemma Beyond(key: Key, base: nat, n: nat, m: Machine, r: Reading)
    requires Stage(key, base, n, m)
    ensures m.store.value.keyTransitions == Links(base, n)
    ensures Example(key, base).size(m.store.value) == 1000 + Total(Links(base, n))
    ensures var setup := Example(key, base);
            !WithinLimits(setup, m.store.value) ==>
              Reload(setup, m, r).failure.Some?
                  && Open(setup, m.store.value, setup.cfg.thumbprint, setup.cfg.keyReference, r).Err?
  {
    ExampleSound(key, base);
    OpensExactly(Example(key, base), m, r);
    ReloadsExactly(Example(key, base), m, r);
  }

  /** The run goes on by k links. */
  lemma Continued(key: Key, base: nat, n: nat, k: nat, m: Machine, known: seq<Step>, before: seq<Answer>)
    returns (steps: seq<Step>, answers: seq<Answer>)
    requires Run(Example(key, base), m, known, before) && Benign(m, known, before) && n + k <= MAX_SAFE
    requires Stage(key, base, n, Before(m, before, |before|))
    requires WithinLimits(Example(key, base), Before(m, before, |before|).store.value)
    ensures Run(Example(key, base), m, steps, answers) && Benign(m, steps, answers)
    ensures Stage(key, base, n + k, Before(m, answers, |answers|))
  {
    var last, step := Before(m, before, |before|), Step(OPERATION, Around(base, n, k));
    Grows(key, base, n, k, last);
    var a := Operate(Example(key, base), last, step.op, step.world);
    PerformsIs(Example(key, base), last, step, a);
    steps, answers := known + [step], before + [a];
    LinkedLonger(Performs(Example(key, base)), m, known, before, step, a);
    LinkedLonger(Benignly(), m, known, before, step, a);
  }

  /** A run of a fresh session with benign answers, and the machine it ends with. */
  ghost predicate Reaches(key: Key, base: nat, steps: seq<Step>, answers: seq<Answer>, m: Machine) {
    var start := Start(Example(key, base), None, Around(base, 0, 0));
    && Starts(Example(key, base), None, Around(base, 0, 0)) && Run(Example(key, base), start, steps, answers)
        && Benign(start, steps, answers)
    && m == Before(start, answers, |answers|)
  }

  /** From any fresh session: n links in one answer. */
  lemma OneAnswer(key: Key, base: nat, n: nat, start: Machine, r: Reading)
    returns (steps: seq<Step>, answers: seq<Answer>, m: Machine)
    requires n <= MAX_SAFE && Stage(key, base, 0, start) && WithinLimits(Example(key, base), start.store.value)
    ensures Run(Example(key, base), start, steps, answers) && Benign(start, steps, answers)
    ensures m == Before(start, answers, |answers|)
    ensures Stage(key, base, n, m) && m.store.value.keyTransitions == Links(base, n)
    ensures Example(key, base).size(m.store.value) == 1000 + Total(Links(base, n))
  {
    steps, answers := Continued(key, base, 0, n, start, [], []);
    m := Before(start, answers, |answers|);
    Beyond(key, base, n, m, r);
  }

  /** And n more in a second answer, if the document is still within the limits. */
  lemma TwoAnswers(key: Key, base: nat, n: nat, start: Machine, r: Reading)
    returns (steps: seq<Step>, answers: seq<Answer>, m: Machine)
    requires n + n <= MAX_SAFE && Stage(key, base, 0, start) && WithinLimits(Example(key, base), start.store.value)
    requires ValidChain(Links(base, n)) && 1000 + Total(Links(base, n)) <= MAX_DOCUMENT
    ensures Run(Example(key, base), start, steps, answers) && Benign(start, steps, answers)
    ensures m == Before(start, answers, |answers|)
    ensures Stage(key, base, n + n, m) && m.store.value.keyTransitions == Links(base, n + n)
    ensures Example(key, base).size(m.store.value) == 1000 + Total(Links(base, n + n))
  {
    var middle;
    steps, answers, middle := OneAnswer(key, base, n, start, r);
    steps, answers := Continued(key, base, n, n, start, steps, answers);
    m := Before(start, answers, |answers|);
    Beyond(key, base, n + n, m, r);
  }

  /** What goes wrong: the session cannot reload what it saved, nor can a new process open it. */
  predicate Stuck(setup: Setup, m: Machine, r: Reading) {
    && m.store.Some? && Reload(setup, m, r).failure.Some?
    && Open(setup, m.store.value, setup.cfg.thumbprint, setup.cfg.keyReference, r).Err?
  }

  lemma ManyFrom(key: Key, start: Machine, n: nat, r: Reading)
    returns (steps: seq<Step>, answers: seq<Answer>, m: Machine)
    requires Stage(key, 0, 0, start) && WithinLimits(Example(key, 0), start.store.value) && n == 1025
    ensures Run(Example(key, 0), start, steps, answers) && Benign(start, steps, answers)
    ensures m == Before(start, answers, |answers|)
    ensures Stuck(Example(key, 0), m, r) && Bearable(Example(key, 0), m.store.value)
    ensures |m.store.value.keyTransitions| == 1025
  {
    steps, answers, m := OneAnswer(key, 0, n, start, r);
    TotalLinks(0, n);
    Beyond(key, 0, n, m, r);
  }

  lemma LongFrom(key: Key, base: nat, start: Machine, n: nat, r: Reading)
    returns (steps: seq<Step>, answers: seq<Answer>, m: Machine)
    requires base == 65536 && n == 1 && Stage(key, base, 0, start)
    requires WithinLimits(Example(key, base), start.store.value)
    ensures Run(Example(key, base), start, steps, answers) && Benign(start, steps, answers)
    ensures m == Before(start, answers, |answers|)
    ensures Stuck(Example(key, base), m, r) && Bearable(Example(key, base), m.store.value)
    ensures |m.store.value.keyTransitions| == 1 && |m.store.value.keyTransitions[0]| == 65537
  {
    steps, answers, m := OneAnswer(key, base, n, start, r);
    TotalLinks(base, n);
    Beyond(key, base, n, m, r);
  }

  lemma LargeFrom(key: Key, base: nat, start: Machine, n: nat, r: Reading)
    returns (steps: seq<Step>, answers: seq<Answer>, m: Machine)
    requires base == 60000 && n == 10 && Stage(key, base, 0, start)
    requires WithinLimits(Example(key, base), start.store.value)
    ensures Run(Example(key, base), start, steps, answers) && Benign(start, steps, answers)
    ensures m == Before(start, answers, |answers|)
    ensures Stuck(Example(key, base), m, r) && ValidChain(m.store.value.keyTransitions)
    ensures Example(key, base).size(m.store.value) > MAX_DOCUMENT
  {
    Sizes(base, n);
    steps, answers, m := TwoAnswers(key, base, n, start, r);
    Beyond(key, base, n + n, m, r);
  }

  /** 1025 short links, in one answer. */
  lemma TooManyLinks(r: Reading) returns (key: Key, steps: seq<Step>, answers: seq<Answer>, m: Machine)
    ensures Sound(Example(key, 0)) && Reaches(key, 0, steps, answers, m)
    ensures Stuck(Example(key, 0), m, r) && Bearable(Example(key, 0), m.store.value)
    ensures |m.store.value.keyTransitions| == 1025
  {
    key := SomeKey();
    ExampleSound(key, 0);
    Begins(key, 0);
    steps, answers, m := ManyFrom(key, Start(Example(key, 0), None, Around(0, 0, 0)), 1025, r);
  }

  /** One link of 65537 characters. */
  lemma TooLong(r: Reading) returns (key: Key, steps: seq<Step>, answers: seq<Answer>, m: Machine)
    ensures Sound(Example(key, 65536)) && Reaches(key, 65536, steps, answers, m)
    ensures Stuck(Example(key, 65536), m, r) && Bearable(Example(key, 65536), m.store.value)
    ensures |m.store.value.keyTransitions| == 1 && |m.store.value.keyTransitions[0]| == 65537
  {
    key := SomeKey();
    ExampleSound(key, 65536);
    Begins(key, 65536);
    steps, answers, m := LongFrom(key, 65536, Start(Example(key, 65536), None, Around(65536, 0, 0)), 1, r);
  }

  /**
   * Twenty links of some 60000 characters, in two answers: fewer and shorter than the limits, but too large together.
   */
  lemma TooLarge(r: Reading) returns (key: Key, steps: seq<Step>, answers: seq<Answer>, m: Machine)
    ensures Sound(Example(key, 60000)) && Reaches(key, 60000, steps, answers, m)
    ensures Stuck(Example(key, 60000), m, r) && ValidChain(m.store.value.keyTransitions)
    ensures Example(key, 60000).size(m.store.value) > MAX_DOCUMENT
  {
    key := SomeKey();
    ExampleSound(key, 60000);
    Begins(key, 60000);
    steps, answers, m := LargeFrom(key, 60000, Start(Example(key, 60000), None, Around(60000, 0, 0)), 10, r);
  }
}
