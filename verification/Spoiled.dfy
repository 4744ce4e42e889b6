/** A run whose saved document does not open again because the server changed the authorization of a held lease. */
module Spoiled {
  import opened Outcomes
  import opened Tokens
  import opened Exchange
  import opened Persistence
  import opened Session
  import opened Crashes
  import opened Safety
  import opened Reopening
  import Outgrown

  // ---- a server that changes the authorization ----

  function Id(letter: char): string {
    seq(36, _ => letter)
  }

  /** The first lease belongs to authorization a..., the other to b...; both are of generation 1. */
  function LeaseText(other: bool): string {
    if other then "lease B" else "lease A"
  }

  function StatusText(other: bool): string {
    if other then "status B" else "status A"
  }

  function IdOf(other: bool): string {
    Id(if other then 'b' else 'a')
  }

  function LeaseToken(key: Outgrown.Key, other: bool): Token {
    Token("A", "issuer", "system", 1, true,
          LeaseClaims(IdOf(other), "device", "jti", key.thumbprint, "hash", 1, 1, 1000, 1000, 3000, 2000))
  }

  function StatusToken(other: bool): Token {
    Token("A", "issuer", "system", 1, true,
          StatusClaims(IdOf(other), "device", "jti", 1, 0, 1, false, GrantActive, [], 1000, None))
  }

  function LeaseOf(key: Outgrown.Key, other: bool): Lease {
    Lease(LeaseText(other), IdOf(other), 1, 1000, 3000, 2000, key.thumbprint, "device", "hash", "A")
  }

  function StatusOf(other: bool): Status {
    Status(StatusText(other), IdOf(other), "device", 1, 0, 1, false, GrantActive, [], 1000, None)
  }

  function Parsed(key: Outgrown.Key, text: string): Option<Token> {
    if text == "lease A" then Some(LeaseToken(key, false))
    else if text == "lease B" then Some(LeaseToken(key, true))
    else if text == "status A" then Some(StatusToken(false))
    else if text == "status B" then Some(StatusToken(true))
    else None
  }

  /** Every document is a thousand characters long. */
  function Example(key: Outgrown.Key): Setup {
    var cfg := Config("system", "issuer", "https://host", map["A" := "key A"], true, false, 0, key.thumbprint,
                      "reference", (text: string) => Parsed(key, text),
                      (publicKey: string, text: string) => true, (hwid: string) => "hash");
    Setup(cfg, (d: Document) => key.signature, (d: Document, signature: string) => true, (d: Document) => 1000,
          (content: Content) => "",
          (content: Content, jti: string) => ("", ""))
  }

  function Granted(other: bool): Raw {
    Exchange.Raw.Received(
      200, Framed(1, "jti", true, [], Some(LeaseText(other)), Some(StatusText(other)), None, None), None)
  }

  function ResponseOf(key: Outgrown.Key, other: bool): Response {
    Response(200, Some(LeaseOf(key, other)), Some(StatusOf(other)), None, None, [], 0, None)
  }

  function Around(other: bool): World {
    World((moment: Moment) => Reading(1000, 0, "boot"), (attempt: nat) => Granted(other), "jti", 0)
  }

  /** First an authorize request, then a status request. */
  function OperationOf(other: bool): Operation {
    if other then SynchronizeStatus else AuthorizeWithAccount(Ask("", None, true))
  }

  // ---- one operation ----

  lemma LeaseVerifies(key: Outgrown.Key, other: bool, jti: Option<string>)
    requires jti.Some? ==> jti.value == "jti"
    ensures var cfg := Example(key).cfg;
            VerifyLease(cfg, LeaseText(other), jti, None, cfg.pinned) == Ok(LeaseOf(key, other))
  {
    assert VerifyJws(Example(key).cfg, LeaseText(other), LeaseKind, Example(key).cfg.pinned)
           == Ok(LeaseToken(key, other));
  }

  lemma StatusVerifies(key: Outgrown.Key, other: bool)
    ensures var cfg := Example(key).cfg;
            VerifyStatus(cfg, StatusText(other), Some("jti"), Some(LeaseOf(key, other)), cfg.pinned)
            == Ok(StatusOf(other))
  {
    assert VerifyJws(Example(key).cfg, StatusText(other), StatusKind, Example(key).cfg.pinned)
        == Ok(StatusToken(other));
  }

  lemma ProcessGranted(key: Outgrown.Key, other: bool, request: PreparedRequest)
    requires request.requestJti == "jti" && request.expectedHwid.None? && request.keysetSequence == 0
    requires request.statusSequence <= 1
    requires request.presentedLease == if other then Some(LeaseText(false)) else None
    ensures var cfg := Example(key).cfg;
            Process(cfg, cfg.pinned, Granted(other), request) == Ok(Processed(cfg.pinned, ResponseOf(key, other)))
  {
    LeaseVerifies(key, false, None);
    LeaseVerifies(key, other, Some("jti"));
    StatusVerifies(key, other);
  }

  /** Before step 1 a blank epoch, before step 2 one with the first lease. */
  ghost predicate Stage(key: Outgrown.Key, other: bool, m: Machine) {
    && Outgrown.Proper(key) && Fine(Example(key), m)
    && m.state.keyTransitions == [] && m.state.keysetSequence == 0
    && m.state.epoch.minimumGeneration <= 1 && 0 <= m.state.epoch.statusSequence <= 1
    && (other ==> m.state.epoch.lease == Some(LeaseOf(key, false)) && m.state.epoch.authorizationId == IdOf(false))
  }

  lemma AcceptGranted(key: Outgrown.Key, other: bool, m: Machine)
    requires Stage(key, other, m) && m.ring == Example(key).cfg.pinned
    ensures var o := Accept(Example(key), m, ResponseOf(key, other), !other, Around(other).clock);
            && o.failure.None? && o.machine.state.keyTransitions == [] && o.machine.state.keysetSequence == 0
            && o.machine.state.epoch == Judged(m.state.epoch, ResponseOf(key, other), !other)
  {
    NothingRestored(Example(key).cfg);
    assert m.state.keyTransitions + ResponseOf(key, other).keyTransitions == [];
  }

  lemma Requested(key: Outgrown.Key, other: bool, m: Machine)
    requires Stage(key, other, m) && m.ring == Example(key).cfg.pinned
    ensures var setup, w := Example(key), Around(other);
            var request := RequestOf(setup, m, OperationOf(other), w.jti);
            && Sender(setup, m, OperationOf(other), w) == Some(m) && request.Ok?
            && Process(setup.cfg, m.ring, Final(setup.cfg, w.network), request.value)
               == Ok(Processed(m.ring, ResponseOf(key, other)))
  {
    var setup, w := Example(key), Around(other);
    Reaches(key, other);
    Sent(key, other, m);
    Asked(key, other, m);
    ProcessGranted(key, other, RequestOf(setup, m, OperationOf(other), w.jti).value);
  }

  lemma Reaches(key: Outgrown.Key, other: bool)
    ensures Final(Example(key).cfg, Around(other).network) == Granted(other)
  {
  }

  lemma Sent(key: Outgrown.Key, other: bool, m: Machine)
    requires Stage(key, other, m)
    ensures Sender(Example(key), m, OperationOf(other), Around(other)) == Some(m)
  {
  }

  /** What the server needs to know of the request. */
  lemma Asked(key: Outgrown.Key, other: bool, m: Machine)
    requires Stage(key, other, m)
    ensures var q := RequestOf(Example(key), m, OperationOf(other), "jti");
            && q.Ok? && q.value.requestJti == "jti" && q.value.expectedHwid.None? && q.value.keysetSequence == 0
            && q.value.statusSequence <= 1
            && q.value.presentedLease == if other then Some(LeaseText(false)) else None
  {
  }

  lemma Performed(key: Outgrown.Key, other: bool, m: Machine)
    requires Stage(key, other, m) && m.ring == Example(key).cfg.pinned
    ensures var a := Perform(Example(key), m, OperationOf(other), Around(other));
            && a.heard == Some(ResponseOf(key, other))
            && a.machine.state.keyTransitions == [] && a.machine.state.keysetSequence == 0
            && a.machine.state.epoch == Judged(m.state.epoch, ResponseOf(key, other), !other)
  {
    var setup, w := Example(key), Around(other);
    Requested(key, other, m);
    AcceptGranted(key, other, m);
    PerformSends(setup, m, OperationOf(other), w);
    var request := RequestOf(setup, m, OperationOf(other), w.jti);
    Executed(setup, m, request, ResponseOf(key, other), !other, Forgets(OperationOf(other)), w);
    Finished(setup, m, ResponseOf(key, other), !other, Forgets(OperationOf(other)), w,
             Postings(setup.cfg, request.value, w));
  }

  lemma Executed(setup: Setup, m: Machine, request: Result<PreparedRequest>, response: Response, authorizing: bool,
                 forgetMissingKey: bool, w: World)
    requires request.Ok?
    requires Process(setup.cfg, m.ring, Final(setup.cfg, w.network), request.value) == Ok(Processed(m.ring, response))
    ensures Execute(setup, m, request, authorizing, forgetMissingKey, w)
            == FinishExecute(setup, m, response, authorizing, forgetMissingKey, w,
                             Postings(setup.cfg, request.value, w))
  {
    assert m.(ring := m.ring) == m;
  }

  lemma Finished(setup: Setup, m: Machine, response: Response, authorizing: bool, forgetMissingKey: bool, w: World,
                 posted: seq<PreparedRequest>)
    requires response.httpStatus == 200 && response.decision.None? && Signed(response)
    requires Accept(setup, m, response, authorizing, w.clock).failure.None?
    ensures var a := FinishExecute(setup, m, response, authorizing, forgetMissingKey, w, posted);
            a.machine == Accept(setup, m, response, authorizing, w.clock).machine && a.heard == Some(response)
  {
    Concluded(setup, Accept(setup, m, response, authorizing, w.clock).machine, response, authorizing, forgetMissingKey,
              w);
  }

  /** A success without a decision changes nothing more after it is accepted. */
  lemma Concluded(setup: Setup, m: Machine, response: Response, authorizing: bool, forgetMissingKey: bool, w: World)
    requires response.httpStatus == 200 && response.decision.None?
    ensures Conclude(setup, m, response, authorizing, forgetMissingKey, w).0 == m
  {
  }

  lemma Operated(key: Outgrown.Key, other: bool, m: Machine)
    requires Stage(key, other, m)
    ensures var a := Operate(Example(key), m, OperationOf(other), Around(other));
            && a.heard == Some(ResponseOf(key, other)) && Inv(Example(key), a.machine)
            && a.machine.state.keyTransitions == [] && a.machine.state.keysetSequence == 0
            && a.machine.state.epoch == Judged(m.state.epoch, ResponseOf(key, other), !other)
  {
    var setup, w := Example(key), Around(other);
    ExampleSound(key);
    ReloadsExactly(setup, m, w.clock(Loading));
    LoadedState(setup, m, OperationOf(other), w);
    NothingRestored(setup.cfg);
    var loaded := Loaded(setup, m, OperationOf(other), w).machine;
    LoadedLog(setup, m, OperationOf(other), w);
    Performed(key, other, loaded);
    OperateInv(setup, m, OperationOf(other), w);
  }

  lemma ExampleSound(key: Outgrown.Key)
    requires Outgrown.Proper(key)
    ensures Sound(Example(key))
  {
  }

  // ---- the run ----

  lemma JudgedFirst(key: Outgrown.Key, e: Epoch)
    ensures var j := Judged(e, ResponseOf(key, false), true);
            && j.lease == Some(LeaseOf(key, false)) && j.authorizationId == IdOf(false)
            && j.minimumGeneration == 1 && j.statusSequence == 1
  {
  }

  lemma JudgedSecond(key: Outgrown.Key, e: Epoch)
    requires e.authorizationId == IdOf(false)
    ensures var j := Judged(e, ResponseOf(key, true), false);
            j.lease == Some(LeaseOf(key, true)) && j.authorizationId == IdOf(false)
    ensures IdOf(true) != IdOf(false)
  {
    assert IdOf(true)[0] != IdOf(false)[0];
  }

  lemma FirstFits(key: Outgrown.Key, e: Epoch)
    ensures Fitting(e, ResponseOf(key, false), true)
  {
  }

  /** The first answer fits. */
  lemma FirstStage(key: Outgrown.Key, m: Machine)
    requires Stage(key, false, m)
    ensures Stage(key, true, Operate(Example(key), m, OperationOf(false), Around(false)).machine)
  {
    Operated(key, false, m);
    JudgedFirst(key, m.state.epoch);
    FirstFits(key, m.state.epoch);
    OperateFine(Example(key), m, OperationOf(false), Around(false));
  }

  lemma Disagrees(setup: Setup, m: Machine, r: Reading)
    requires Sound(setup) && Inv(setup, m) && setup.cfg.persistent && m.state.epoch.lease.Some?
    requires m.state.epoch.lease.value.authorizationId != m.state.epoch.authorizationId
    ensures Outgrown.Stuck(setup, m, r)
  {
    ReloadsExactly(setup, m, r);
    OpensExactly(setup, m, r);
  }

  lemma Small(key: Outgrown.Key, m: Machine)
    requires Inv(Example(key), m) && m.state.keyTransitions == []
    ensures WithinLimits(Example(key), m.store.value)
  {
  }

  /** The second one leaves a lease that the saved authorization identifier does not belong to. */
  lemma SecondSpoils(key: Outgrown.Key, m: Machine, r: Reading)
    requires Stage(key, true, m)
    ensures var n := Operate(Example(key), m, OperationOf(true), Around(true)).machine;
            && Outgrown.Stuck(Example(key), n, r) && WithinLimits(Example(key), n.store.value)
            && n.state.epoch.lease == Some(LeaseOf(key, true)) && n.state.epoch.authorizationId == IdOf(false)
  {
    Operated(key, true, m);
    ExampleSound(key);
    JudgedSecond(key, m.state.epoch);
    var n := Operate(Example(key), m, OperationOf(true), Around(true)).machine;
    Disagrees(Example(key), n, r);
    Small(key, n);
  }

  lemma Begins(key: Outgrown.Key)
    requires Outgrown.Proper(key)
    ensures var setup, first := Example(key), Around(false);
            Starts(setup, None, first) && Stage(key, false, Start(setup, None, first))
  {
    StartFine(Example(key), None, Around(false));
  }

  lemma TwoSteps(setup: Setup, m: Machine, one: Step, a: Answer, two: Step, b: Answer)
    returns (steps: seq<Step>, answers: seq<Answer>)
    requires a == Operate(setup, m, one.op, one.world) && b == Operate(setup, a.machine, two.op, two.world)
    ensures Run(setup, m, steps, answers) && answers == [a, b]
  {
    PerformsIs(setup, m, one, a);
    PerformsIs(setup, a.machine, two, b);
    steps, answers := [one, two], [a, b];
    assert Before(m, answers, 0) == m && Before(m, answers, 1) == a.machine;
  }

  /**
   * An authorize request is answered with a lease, a status request with a lease of the same generation for another
   * authorization. Both answers verify and are accepted; then the session is stuck.
   */
  lemma OtherAuthorization(r: Reading)
    returns (key: Outgrown.Key, steps: seq<Step>, answers: seq<Answer>, m: Machine)
    ensures Sound(Example(key)) && Starts(Example(key), None, Around(false))
    ensures Run(Example(key), Start(Example(key), None, Around(false)), steps, answers) && |answers| == 2
    ensures m == answers[1].machine && Outgrown.Stuck(Example(key), m, r) && WithinLimits(Example(key), m.store.value)
    ensures m.state.epoch.lease == Some(LeaseOf(key, true)) && m.state.epoch.authorizationId == IdOf(false)
  {
    key := Outgrown.SomeKey();
    ExampleSound(key);
    Begins(key);
    var setup, start := Example(key), Start(Example(key), None, Around(false));
    var one, two := Step(OperationOf(false), Around(false)), Step(OperationOf(true), Around(true));
    FirstStage(key, start);
    var a := Operate(setup, start, one.op, one.world);
    SecondSpoils(key, a.machine, r);
    var b := Operate(setup, a.machine, two.op, two.world);
    steps, answers := TwoSteps(setup, start, one, a, two, b);
    m := b.machine;
  }
}
