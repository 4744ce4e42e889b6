/** The client's ring of keys against the saved chain of links. */
module Rings {
  import opened Outcomes
  import opened Tokens
  import opened KeyChain
  import opened Exchange
  import opened Persistence
  import opened Session
  import opened Crashes
  import opened Safety

  /** A synchronized ring holds the pinned roots unchanged, and otherwise only keys that a link introduced. */
  lemma SynchronizedRing(cfg: Config, m: Machine)
    requires Synchronized(cfg, m)
    ensures Extends(m.ring, cfg.pinned)
    ensures forall kid | kid in m.ring && kid !in cfg.pinned ::
              exists i | 0 <= i < |m.state.keyTransitions| ::
                Replay(cfg, m.state.keyTransitions, Chain(0, cfg.pinned)).Ok?
                && Introduces(cfg, m.state.keyTransitions, i, Chain(0, cfg.pinned), kid, m.ring[kid])
  {
    RestoredRing(cfg, m.state.keyTransitions, m.state.keysetSequence);
  }

  /** The ways out of accept that leave the ring as process extended it. */
  predicate SkipsRebuild(setup: Setup, m: Machine, response: Response, authorizing: bool, r: Reading) {
    || MovedBack(m.state, response, authorizing)
    || (Stale(response)
        && (!setup.cfg.persistent || m.store.None?
            || Authentic(setup, m.store.value, m.state.thumbprint, m.state.keyReference, r).Err?))
  }

  /** A reload synchronizes the ring unless it does not get as far as replaying the saved chain. */
  lemma ReloadRing(setup: Setup, m: Machine, after: Machine, r: Reading)
    requires Synchronized(setup.cfg, m) && after == m.(ring := after.ring)
    ensures var skips := !setup.cfg.persistent || m.store.None?
                         || Authentic(setup, m.store.value, m.state.thumbprint, m.state.keyReference, r).Err?;
            && (Synchronized(setup.cfg, Reload(setup, after, r).machine) <==> !skips || after.ring == m.ring)
            && (skips ==> Reload(setup, after, r).machine == after)
  {
    if setup.cfg.persistent && m.store.Some? {
      var parsed := Authentic(setup, m.store.value, m.state.thumbprint, m.state.keyReference, r);
      if parsed.Ok? {
        ReplayedRing(setup, m, after, r, parsed.value);
      }
    }
  }

  lemma ReplayedRing(setup: Setup, m: Machine, after: Machine, r: Reading, s: State)
    requires Synchronized(setup.cfg, m) && after == m.(ring := after.ring) && setup.cfg.persistent && m.store.Some?
    requires Authentic(setup, m.store.value, m.state.thumbprint, m.state.keyReference, r) == Ok(s)
    ensures Synchronized(setup.cfg, Reload(setup, after, r).machine)
  {
  }

  /**
   * From a synchronized ring, accept leaves a synchronized ring exactly when it gets to the rebuild or there is no new
   * key.
   */
  lemma AcceptRing(setup: Setup, m: Machine, after: Machine, response: Response, request: PreparedRequest, raw: Raw,
                   authorizing: bool, clock: Clock)
    requires Synchronized(setup.cfg, m) && AfterProcess(setup.cfg, m, after, response, request, raw)
    ensures Synchronized(setup.cfg, Accept(setup, after, response, authorizing, clock).machine)
            <==> !SkipsRebuild(setup, m, response, authorizing, clock(Anchoring)) || after.ring == m.ring
  {
    ReloadRing(setup, m, after, clock(Anchoring));
    if !MovedBack(m.state, response, authorizing) && !Stale(response) {
      var links := m.state.keyTransitions + response.keyTransitions;
      if Restore(setup.cfg, links, response.keysetSequence).Ok? {
        RestoredIsReceived(setup.cfg, m, after, response, request, raw);
      }
    }
  }

  /** A commit makes the ring that verified the response the new ring, a rejected chain restores the old one. */
  lemma AcceptOutcome(setup: Setup, m: Machine, after: Machine, response: Response, request: PreparedRequest, raw: Raw,
                      authorizing: bool, clock: Clock)
    requires Synchronized(setup.cfg, m) && AfterProcess(setup.cfg, m, after, response, request, raw)
    ensures var o := Accept(setup, after, response, authorizing, clock);
            && (SkipsRebuild(setup, m, response, authorizing, clock(Anchoring)) ==> o.machine == after)
            && (o.failure.Some? && !SkipsRebuild(setup, m, response, authorizing, clock(Anchoring)) ==> o.machine == m)
            && (o.failure.None? && !Stale(response) ==>
                  o.machine.ring == after.ring
                  && o.machine.state.keyTransitions == m.state.keyTransitions + response.keyTransitions
                  && o.machine.state.keysetSequence == response.keysetSequence)
  {
    if !MovedBack(m.state, response, authorizing) && !Stale(response) {
      var links := m.state.keyTransitions + response.keyTransitions;
      if Restore(setup.cfg, links, response.keysetSequence).Ok? {
        RestoredIsReceived(setup.cfg, m, after, response, request, raw);
      }
    }
  }

  // ---- any ring ----

  /** The chain of the state replays. */
  ghost predicate Replayable(cfg: Config, s: State) {
    Restore(cfg, s.keyTransitions, s.keysetSequence).Ok?
  }

  /** A commit synchronizes any ring. */
  lemma CommitRing(setup: Setup, m: Machine, response: Response, authorizing: bool, clock: Clock)
    requires Commits(setup.cfg, m.state, response, authorizing)
    ensures Synchronized(setup.cfg, Accept(setup, m, response, authorizing, clock).machine)
  {
  }

  /** accept synchronizes any ring when it gets to the rebuild, and leaves the ring alone when it does not. */
  lemma AcceptAnyRing(setup: Setup, m: Machine, response: Response, authorizing: bool, clock: Clock)
    requires Replayable(setup.cfg, m.state)
    ensures var n := Accept(setup, m, response, authorizing, clock).machine;
            && Replayable(setup.cfg, n.state)
            && (if SkipsRebuild(setup, m, response, authorizing, clock(Anchoring)) then n == m
                else Synchronized(setup.cfg, n))
  {
    if Commits(setup.cfg, m.state, response, authorizing) {
      CommitRing(setup, m, response, authorizing, clock);
    }
  }

  /** The same ring and the same chain. */
  predicate SameRing(m: Machine, n: Machine) {
    && n.ring == m.ring && n.state.keyTransitions == m.state.keyTransitions
    && n.state.keysetSequence == m.state.keysetSequence
  }

  lemma CaughtRing(setup: Setup, m: Machine, failure: Failure, ending: bool, w: World, posted: seq<PreparedRequest>,
                   heard: Option<Response>)
    ensures SameRing(m, Caught(setup, m, failure, ending, w, posted, heard).machine)
  {
  }

  lemma ConcludeRing(setup: Setup, m: Machine, response: Response, authorizing: bool, forgetMissingKey: bool, w: World)
    ensures SameRing(m, Conclude(setup, m, response, authorizing, forgetMissingKey, w).0)
  {
    assert SameRing(m, Keeping(setup, m, response, forgetMissingKey, w));
  }

  lemma FinishExecuteRing(setup: Setup, m: Machine, response: Response, authorizing: bool, forgetMissingKey: bool,
                          w: World, posted: seq<PreparedRequest>)
    ensures var o := if Signed(response) then Accept(setup, m, response, authorizing, w.clock) else Outcome(m, None);
            SameRing(o.machine, FinishExecute(setup, m, response, authorizing, forgetMissingKey, w, posted).machine)
  {
    var o := if Signed(response) then Accept(setup, m, response, authorizing, w.clock) else Outcome(m, None);
    if o.failure.Some? {
      CaughtRing(setup, o.machine, o.failure.value, false, w, posted, Heard(response));
    } else {
      ConcludeRing(setup, o.machine, response, authorizing, forgetMissingKey, w);
    }
  }

  lemma FinishRing(setup: Setup, accepted: Outcome, response: Response, w: World, posted: seq<PreparedRequest>)
    ensures SameRing(accepted.machine, Finish(setup, accepted, response, w, posted).machine)
  {
  }

  lemma EarlyRing(setup: Setup, m: Machine, op: Operation, w: World, c: Machine)
    requires Early(setup, m, op, w, c)
    ensures SameRing(m, c)
  {
  }

  /** Once accept is done, an operation leaves the ring alone. */
  lemma AfterRing(setup: Setup, m: Machine, op: Operation, w: World)
    requires Taken(setup, m, op, w).Some?
    ensures SameRing(Taken(setup, m, op, w).value.machine, Perform(setup, m, op, w).machine)
  {
    var (received, response) := Answered(setup, m, op, w).value;
    var posted := Postings(setup.cfg, Sending(setup, m, op, w).value.1, w);
    if op.End? {
      FinishRing(setup, Taken(setup, m, op, w).value, response, w, posted);
    } else {
      PerformTaken(setup, m, op, w);
      FinishExecuteRing(setup, received, response, Authorizes(op), Forgets(op), w, posted);
    }
  }

  /** A response that does not get to accept leaves the ring as process extended it. */
  lemma UntakenRing(setup: Setup, m: Machine, op: Operation, w: World)
    requires Taken(setup, m, op, w).None?
    ensures var answered := Answered(setup, m, op, w);
            SameRing(if answered.Some? then answered.value.0 else m, Perform(setup, m, op, w).machine)
  {
    if Sending(setup, m, op, w).Some? {
      UnansweredRing(setup, m, op, w);
    } else if !op.End? && Sender(setup, m, op, w).Some? {
      EarlyRing(setup, m, op, w, Sender(setup, m, op, w).value);
    }
  }

  lemma UnansweredRing(setup: Setup, m: Machine, op: Operation, w: World)
    requires Sending(setup, m, op, w).Some? && Taken(setup, m, op, w).None?
    ensures var answered := Answered(setup, m, op, w);
            SameRing(if answered.Some? then answered.value.0 else m, Perform(setup, m, op, w).machine)
  {
    var (n, request) := Sending(setup, m, op, w).value;
    assert Early(setup, m, op, w, n);
    EarlyRing(setup, m, op, w, n);
    match Process(setup.cfg, n.ring, Final(setup.cfg, w.network), request)
    case Err(f) =>
    case Ok(p) =>
      if !op.End? {
        FinishExecuteRing(setup, n.(ring := p.ring), p.response, Authorizes(op), Forgets(op), w,
                          Postings(setup.cfg, request, w));
      }
  }

  /** The operation's response gets to the rebuild. */
  predicate Rebuilds(setup: Setup, m: Machine, op: Operation, w: World) {
    && Taken(setup, m, op, w).Some?
    && var (received, response) := Answered(setup, m, op, w).value;
       !SkipsRebuild(setup, received, response, Authorizes(op), w.clock(Anchoring))
  }

  /** The operation's verified response brings a new key and does not get to the rebuild. */
  predicate Parts(setup: Setup, m: Machine, op: Operation, w: World) {
    Answered(setup, m, op, w).Some? && Answered(setup, m, op, w).value.0.ring != m.ring && !Rebuilds(setup, m, op, w)
  }

  /**
   * Every operation, whatever the ring was: one that gets to the rebuild synchronizes the ring; any other keeps a
   * synchronized ring synchronized exactly when it brings no new key, and a response without a new key changes nothing.
   */
  lemma PerformRing(setup: Setup, m: Machine, op: Operation, w: World)
    requires Replayable(setup.cfg, m.state)
    ensures var n := Perform(setup, m, op, w).machine;
            && Replayable(setup.cfg, n.state)
            && (Rebuilds(setup, m, op, w) ==> Synchronized(setup.cfg, n))
            && (Synchronized(setup.cfg, m) ==> (Synchronized(setup.cfg, n) <==> !Parts(setup, m, op, w)))
            && (!Rebuilds(setup, m, op, w) && !Parts(setup, m, op, w) ==> SameRing(m, n))
  {
    if Sending(setup, m, op, w).Some? {
      EarlyRing(setup, m, op, w, Sending(setup, m, op, w).value.0);
    }
    if Taken(setup, m, op, w).Some? {
      var (received, response) := Answered(setup, m, op, w).value;
      AcceptAnyRing(setup, received, response, Authorizes(op), w.clock);
      AfterRing(setup, m, op, w);
    } else {
      UntakenRing(setup, m, op, w);
    }
  }

  /** In a persistent session the reload before an operation makes up for every earlier one. */
  lemma ReloadedRing(setup: Setup, m: Machine, op: Operation, w: World)
    requires Inv(setup, m) && setup.cfg.persistent && Loaded(setup, m, op, w).failure.None?
    ensures var loaded := Loaded(setup, m, op, w).machine;
            Synchronized(setup.cfg, Operate(setup, m, op, w).machine) <==> !Parts(setup, loaded, op, w)
  {
    LoadedInv(setup, m, op, w);
    PerformRing(setup, Loaded(setup, m, op, w).machine, op, w);
  }

  /** A memory-only session has no reload: its ring stays parted until a rebuild or a restart. */
  lemma MemoryRing(setup: Setup, m: Machine, step: Step, a: Answer)
    requires !setup.cfg.persistent && Replayable(setup.cfg, m.state) && Performs(setup)(m, step, a)
    ensures Replayable(setup.cfg, a.machine.state)
    ensures step.op.Restart? || Rebuilds(setup, m, step.op, step.world) ==> Synchronized(setup.cfg, a.machine)
    ensures Synchronized(setup.cfg, m) ==>
              (Synchronized(setup.cfg, a.machine)
               <==> step.op.Restart? || !Parts(setup, m, step.op, step.world))
  {
    PerformsIs(setup, m, step, a);
    NothingRestored(setup.cfg);
    PerformRing(setup, Loaded(setup, m, step.op, step.world).machine, step.op, step.world);
  }

  lemma {:induction false} RunReplays(setup: Setup, m: Machine, steps: seq<Step>, answers: seq<Answer>, i: nat)
    requires !setup.cfg.persistent && Replayable(setup.cfg, m.state) && Run(setup, m, steps, answers) && i <= |steps|
    ensures Replayable(setup.cfg, Before(m, answers, i).state)
  {
    if i > 0 {
      RunReplays(setup, m, steps, answers, i - 1);
      MemoryRing(setup, Before(m, answers, i - 1), steps[i - 1], answers[i - 1]);
    }
  }

  /** The session's start, or an operation after which any ring is synchronized. */
  ghost predicate Renewed(setup: Setup, m: Machine, steps: seq<Step>, answers: seq<Answer>, k: nat)
    requires |answers| == |steps| && k <= |steps|
  {
    k == 0 || steps[k - 1].op.Restart?
    || Rebuilds(setup, Before(m, answers, k - 1), steps[k - 1].op, steps[k - 1].world)
  }

  /**
   * Over every run of a memory-only session: from its start, from a restart, or from any response on that got to the
   * rebuild, the ring is that of the chain until a response brings a new key and does not get to the rebuild.
   */
  lemma {:induction false} RingInEveryRun(setup: Setup, saved: Option<Document>, first: World, steps: seq<Step>,
                                          answers: seq<Answer>, k: nat, i: nat)
    requires !setup.cfg.persistent && Starts(setup, saved, first)
    requires Run(setup, Start(setup, saved, first), steps, answers) && k <= i <= |steps|
    requires Renewed(setup, Start(setup, saved, first), steps, answers, k)
    requires forall j | k <= j < i ::
               !Parts(setup, Before(Start(setup, saved, first), answers, j), steps[j].op, steps[j].world)
    ensures Synchronized(setup.cfg, Before(Start(setup, saved, first), answers, i))
    decreases i
  {
    var m := Start(setup, saved, first);
    NothingRestored(setup.cfg);
    if i > 0 {
      RunReplays(setup, m, steps, answers, i - 1);
      MemoryRing(setup, Before(m, answers, i - 1), steps[i - 1], answers[i - 1]);
      if k < i {
        RingInEveryRun(setup, saved, first, steps, answers, k, i - 1);
      }
    }
  }

  // ---- an input for which the ring and the chain part ----

  /** Key A is pinned, "link" introduces key B, and "stale" is a decision with code STALE_GENERATION. */
  function ExampleParse(text: string): Option<Token> {
    if text == "link" then Some(Token("A", "issuer", "system", 1, true, KeysetClaims("A", "B", "key B", 0, 1)))
    else if text == "stale" then
      Some(Token("A", "issuer", "system", 1, true,
                 DecisionClaims("STALE_GENERATION", "jti", 0, Unchanged, None, Some("thumb"))))
    else None
  }

  function ExampleSetup(): Setup {
    var cfg := Config("system", "issuer", "https://host", map["A" := "key A"], false, false, 0, "thumb", "",
                      ExampleParse,
                      (key: string, text: string) => true, (hwid: string) => "");
    Setup(cfg, (d: Document) => "", (d: Document, signature: string) => true,
          (d: Document) => 1, (content: Content) => "",
          (content: Content, jti: string) => ("", ""))
  }

  function ExampleRaw(): Raw {
    Exchange.Raw.Received(409, Framed(1, "jti", true, ["link"], None, None, Some("stale"),
                                      Some(Problem(409, "STALE_GENERATION", true))), None)
  }

  function ExampleRequest(): PreparedRequest {
    PreparedRequest("authorize", "https://host", "{}", ".", "jti", None, None, 0, 0)
  }

  /**
   * A memory-only session that gets a stale-generation answer together with a link keeps a key its chain does not
   * have.
   */
  lemma StaleAnswerParts(r: Reading, clock: Clock)
    ensures var setup := ExampleSetup();
            var m := Machine(NewState(setup.cfg, r), setup.cfg.pinned, None, []);
            var processed := Process(setup.cfg, m.ring, ExampleRaw(), ExampleRequest());
            && Synchronized(setup.cfg, m) && processed.Ok?
            && var after := m.(ring := processed.value.ring);
               var o := Accept(setup, after, processed.value.response, true, clock);
               o.failure.None? && "B" in o.machine.ring && !Synchronized(setup.cfg, o.machine)
  {
    var setup := ExampleSetup();
    var m := Machine(NewState(setup.cfg, r), setup.cfg.pinned, None, []);
    NothingRestored(setup.cfg);
    var links := ["link"];
    assert links[..0] == [] && Replay(setup.cfg, [], Chain(0, m.ring)) == Ok(Chain(0, m.ring));
    assert Replay(setup.cfg, links, Chain(0, m.ring)) == Transition(setup.cfg, "link", 0, m.ring);
    assert VerifyJws(setup.cfg, "link", KeysetKind, m.ring).Ok?;
    assert Transition(setup.cfg, "link", 0, m.ring) == Ok(Chain(1, m.ring["B" := "key B"]));
    var ring := m.ring["B" := "key B"];
    assert VerifyDecision(setup.cfg, "stale", "jti", None, None, ring).Ok?;
  }
}
