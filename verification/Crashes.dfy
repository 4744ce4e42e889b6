/** A process that stops in the middle of an operation: what it has sent, and what is in the store then. */
module Crashes {
  import opened Outcomes
  import opened Exchange
  import opened Persistence
  import opened Session

  /** The machine that sends a request, with everything saved that is saved before, and the request. */
  function Sending(setup: Setup, m: Machine, op: Operation, w: World): Option<(Machine, PreparedRequest)> {
    if op.End? then
      var begun := WithPendingEnd(setup, m, op.reason, w);
      if m.state.epoch.ended || begun.failure.Some? || begun.machine.state.epoch.pendingEnd.None? then None
      else Some((begun.machine, begun.machine.state.epoch.pendingEnd.value))
    else
      match Sender(setup, m, op, w)
      case None => None
      case Some(n) =>
        var request := RequestOf(setup, n, op, w.jti);
        if request.Err? then None else Some((n, request.value))
  }

  /** The machine and the response, once the answer is verified. */
  function Answered(setup: Setup, m: Machine, op: Operation, w: World): Option<(Machine, Response)> {
    match Sending(setup, m, op, w)
    case None => None
    case Some((n, request)) =>
      match Process(setup.cfg, n.ring, Final(setup.cfg, w.network), request)
      case Err(f) => None
      case Ok(p) => Some((n.(ring := p.ring), p.response))
  }

  /** What accept makes of the response, if the response gets as far as that. */
  function Taken(setup: Setup, m: Machine, op: Operation, w: World): Option<Outcome> {
    match Answered(setup, m, op, w)
    case None => None
    case Some((n, response)) =>
      if (if op.End? then Overloaded(response) else !Signed(response)) then None
      else Some(Accept(setup, n, response, Authorizes(op), w.clock))
  }

  /** Before the answer counts: the credential or the pending end request is saved, and the request may be sent. */
  predicate Early(setup: Setup, m: Machine, op: Operation, w: World, c: Machine) {
    if op.End? then c == WithPendingEnd(setup, m, op.reason, w).machine else Sender(setup, m, op, w) == Some(c)
  }

  /** After the answer was accepted, and before the operation's last save. */
  predicate Late(setup: Setup, m: Machine, op: Operation, w: World, c: Machine) {
    match Taken(setup, m, op, w)
    case None => false
    case Some(o) =>
      || c == o.machine
      || (o.failure.None? && c == Keeping(setup, o.machine, Answered(setup, m, op, w).value.1, Forgets(op), w))
  }

  /** The process stops before it has the answer; the request was posted any number of times. */
  predicate StopsEarly(setup: Setup, m: Machine, op: Operation, w: World, a: Answer) {
    var loaded := Loaded(setup, m, op, w);
    && loaded.failure.None? && !op.Restart? && Early(setup, loaded.machine, op, w, a.machine)
    && a.posted <= Operate(setup, m, op, w).posted && a == Answer(a.machine, Err(LocalFailure), a.posted, None)
  }

  /** The process stops after the answer was accepted; so the answer counts as heard. */
  predicate StopsLate(setup: Setup, m: Machine, op: Operation, w: World, a: Answer) {
    var loaded := Loaded(setup, m, op, w);
    && loaded.failure.None? && !op.Restart? && Late(setup, loaded.machine, op, w, a.machine)
    && a == Operate(setup, m, op, w).(machine := a.machine)
  }

  /** The process stops during the operation, possibly before anything has happened. Nobody gets the result. */
  predicate Interrupted(setup: Setup, m: Machine, op: Operation, w: World, a: Answer) {
    || a == Answer(m, Err(LocalFailure), [], None)
    || StopsEarly(setup, m, op, w, a)
    || StopsLate(setup, m, op, w, a)
  }

  // ---- no save is missed ----

  /** From m to c the store is written once or not at all. */
  predicate OneSave(m: Machine, c: Machine) {
    || (c.written == m.written && c.store == m.store)
    || (c.store.Some? && c.written == m.written + [c.store.value])
  }

  /** The store at the time the first n documents were written. */
  predicate StoreAt(m: Machine, c: Machine, n: nat) {
    && |m.written| <= n == |c.written|
    && (if n == |m.written| then c.store == m.store else c.store == Some(c.written[n - 1]))
  }

  ghost predicate Saves(ms: seq<Machine>) {
    |ms| > 0 && forall i | 0 <= i < |ms| - 1 :: OneSave(ms[i], ms[i + 1])
  }

  lemma {:induction false} OneOf(ms: seq<Machine>, n: nat) returns (i: nat)
    requires Saves(ms) && |ms[0].written| <= n <= |ms[|ms| - 1].written|
    ensures i < |ms| && ms[i].written == ms[|ms| - 1].written[..n] && StoreAt(ms[0], ms[i], n)
    decreases |ms|
  {
    var last := |ms| - 1;
    if last == 0 {
      i := 0;
    } else if n <= |ms[last - 1].written| {
      i := OneOf(ms[..last], n);
    } else {
      i := last;
      LogGrows(ms[..last]);
    }
  }

  lemma {:induction false} LogGrows(ms: seq<Machine>)
    requires Saves(ms)
    ensures |ms[0].written| <= |ms[|ms| - 1].written|
    decreases |ms|
  {
    if |ms| > 1 {
      LogGrows(ms[..|ms| - 1]);
    }
  }

  lemma AcceptSaves(setup: Setup, m: Machine, response: Response, authorizing: bool, clock: Clock)
    ensures OneSave(m, Accept(setup, m, response, authorizing, clock).machine)
  {
  }

  lemma CaughtSaves(setup: Setup, m: Machine, failure: Failure, ending: bool, w: World, posted: seq<PreparedRequest>,
                    heard: Option<Response>)
    ensures OneSave(m, Caught(setup, m, failure, ending, w, posted, heard).machine)
  {
  }

  lemma ConcludeSaves(setup: Setup, m: Machine, response: Response, authorizing: bool, forgetMissingKey: bool, w: World)
    ensures OneSave(m, Keeping(setup, m, response, forgetMissingKey, w))
    ensures OneSave(Keeping(setup, m, response, forgetMissingKey, w),
                    Conclude(setup, m, response, authorizing, forgetMissingKey, w).0)
  {
  }

  lemma FinishSaves(setup: Setup, accepted: Outcome, response: Response, w: World, posted: seq<PreparedRequest>)
    ensures OneSave(accepted.machine, Finish(setup, accepted, response, w, posted).machine)
  {
    if accepted.failure.Some? {
      CaughtSaves(setup, accepted.machine, accepted.failure.value, true, w, posted, Heard(response));
    }
  }

  lemma SenderSaves(setup: Setup, m: Machine, op: Operation, w: World)
    requires Sender(setup, m, op, w).Some?
    ensures OneSave(m, Sender(setup, m, op, w).value)
  {
  }

  /** A response that is not accepted leads to one save at most. */
  lemma UntakenSaves(setup: Setup, m: Machine, op: Operation, w: World)
    requires !op.End? && Sender(setup, m, op, w).Some? && Taken(setup, m, op, w).None?
    ensures OneSave(Sender(setup, m, op, w).value, Perform(setup, m, op, w).machine)
  {
    var n := Sender(setup, m, op, w).value;
    UntakenUnsigned(setup, m, op, w);
    PerformSends(setup, m, op, w);
    UnsignedExecuteSaves(setup, n, RequestOf(setup, n, op, w.jti), Authorizes(op), Forgets(op), w);
  }

  lemma UnsignedExecuteSaves(setup: Setup, m: Machine, request: Result<PreparedRequest>, authorizing: bool,
                             forgetMissingKey: bool, w: World)
    requires request.Ok? ==>
               var p := Process(setup.cfg, m.ring, Final(setup.cfg, w.network), request.value);
               p.Ok? ==> !Signed(p.value.response)
    ensures OneSave(m, Execute(setup, m, request, authorizing, forgetMissingKey, w).machine)
  {
    if request.Ok? {
      var posted := Postings(setup.cfg, request.value, w);
      match Process(setup.cfg, m.ring, Final(setup.cfg, w.network), request.value)
      case Err(f) => CaughtSaves(setup, m, f, false, w, posted, None);
      case Ok(p) => UnsignedSaves(setup, m.(ring := p.ring), p.response, authorizing, forgetMissingKey, w, posted);
    }
  }

  lemma UnsignedSaves(setup: Setup, m: Machine, response: Response, authorizing: bool, forgetMissingKey: bool, w: World,
                      posted: seq<PreparedRequest>)
    requires !Signed(response)
    ensures OneSave(m, FinishExecute(setup, m, response, authorizing, forgetMissingKey, w, posted).machine)
  {
    ConcludeSaves(setup, m, response, authorizing, forgetMissingKey, w);
  }

  /** The saves from an accepted response to the end. */
  lemma FinishExecuteSaves(setup: Setup, m: Machine, response: Response, authorizing: bool, forgetMissingKey: bool,
                           w: World, posted: seq<PreparedRequest>) returns (ms: seq<Machine>)
    requires Signed(response)
    ensures var o := Accept(setup, m, response, authorizing, w.clock);
            && Saves(ms) && |ms| >= 2 && ms[0] == o.machine
            && ms[|ms| - 1] == FinishExecute(setup, m, response, authorizing, forgetMissingKey, w, posted).machine
            && forall i | 0 <= i < |ms| - 1 ::
                 || ms[i] == o.machine
                 || (o.failure.None? && ms[i] == Keeping(setup, o.machine, response, forgetMissingKey, w))
  {
    var o := Accept(setup, m, response, authorizing, w.clock);
    var last := FinishExecute(setup, m, response, authorizing, forgetMissingKey, w, posted).machine;
    if o.failure.Some? {
      CaughtSaves(setup, o.machine, o.failure.value, false, w, posted, Heard(response));
      ms := [o.machine, last];
    } else {
      ConcludeSaves(setup, o.machine, response, authorizing, forgetMissingKey, w);
      ms := [o.machine, Keeping(setup, o.machine, response, forgetMissingKey, w), last];
    }
  }

  /** The machines in the course of an operation: before, with what precedes the answer saved, after it, at the end. */
  ghost predicate Course(setup: Setup, m: Machine, op: Operation, w: World, ms: seq<Machine>) {
    && Saves(ms) && |ms| >= 2 && ms[0] == m && ms[|ms| - 1] == Perform(setup, m, op, w).machine
    && (|ms| > 2 ==> Early(setup, m, op, w, ms[1]))
    && forall i | 2 <= i < |ms| - 1 :: Late(setup, m, op, w, ms[i])
  }

  lemma CourseFrom(setup: Setup, m: Machine, op: Operation, w: World, n: Machine, ms: seq<Machine>)
    requires Saves(ms) && OneSave(m, n) && OneSave(n, ms[0]) && Early(setup, m, op, w, n)
    requires ms[|ms| - 1] == Perform(setup, m, op, w).machine
    requires forall i | 0 <= i < |ms| - 1 :: Late(setup, m, op, w, ms[i])
    ensures Course(setup, m, op, w, [m, n] + ms)
  {
  }

  /** The machines of an operation that sends a request, in order, with at most one save from one to the next. */
  lemma ExecuteSaves(setup: Setup, m: Machine, op: Operation, w: World) returns (ms: seq<Machine>)
    requires !op.End? && Sender(setup, m, op, w).Some?
    ensures Course(setup, m, op, w, ms)
  {
    var n := Sender(setup, m, op, w).value;
    SenderSaves(setup, m, op, w);
    if Taken(setup, m, op, w).None? {
      UntakenSaves(setup, m, op, w);
      ms := [m, n, Perform(setup, m, op, w).machine];
    } else {
      ms := TakenSaves(setup, m, op, w);
    }
  }

  lemma TakenSaves(setup: Setup, m: Machine, op: Operation, w: World) returns (ms: seq<Machine>)
    requires !op.End? && Sender(setup, m, op, w).Some? && Taken(setup, m, op, w).Some?
    requires OneSave(m, Sender(setup, m, op, w).value)
    ensures Course(setup, m, op, w, ms)
  {
    var n := Sender(setup, m, op, w).value;
    var (received, response) := Answered(setup, m, op, w).value;
    AcceptSaves(setup, received, response, Authorizes(op), w.clock);
    var posted := Postings(setup.cfg, Sending(setup, m, op, w).value.1, w);
    var after := FinishExecuteSaves(setup, received, response, Authorizes(op), Forgets(op), w, posted);
    PerformTaken(setup, m, op, w);
    CourseFrom(setup, m, op, w, n, after);
    ms := [m, n] + after;
  }

  lemma PerformTaken(setup: Setup, m: Machine, op: Operation, w: World)
    requires !op.End? && Taken(setup, m, op, w).Some?
    ensures var (received, response) := Answered(setup, m, op, w).value;
            var posted := Postings(setup.cfg, Sending(setup, m, op, w).value.1, w);
            Perform(setup, m, op, w) == FinishExecute(setup, received, response, Authorizes(op), Forgets(op), w, posted)
  {
  }

  /** An operation posts the one request it sends, as often as the network asks for it, and nothing else. */
  lemma PostedIs(setup: Setup, m: Machine, op: Operation, w: World)
    ensures Perform(setup, m, op, w).posted
            == match Sending(setup, m, op, w)
               case None => []
               case Some((n, request)) => Postings(setup.cfg, request, w)
  {
    if !op.End? && Sender(setup, m, op, w).Some? {
      PerformSends(setup, m, op, w);
    }
  }

  /** An operation has heard exactly the signed response that accept got. */
  lemma HeardIs(setup: Setup, m: Machine, op: Operation, w: World)
    ensures Perform(setup, m, op, w).heard
            == if Taken(setup, m, op, w).Some? then Heard(Answered(setup, m, op, w).value.1) else None
  {
    if Taken(setup, m, op, w).Some? {
      if op.End? {
        PerformEnded(setup, m, op, w);
      } else {
        PerformTaken(setup, m, op, w);
      }
    } else {
      UntakenUnheard(setup, m, op, w);
    }
  }

  lemma UntakenUnheard(setup: Setup, m: Machine, op: Operation, w: World)
    requires Taken(setup, m, op, w).None?
    ensures Perform(setup, m, op, w).heard.None?
  {
    if op.End? {
      UntakenEndUnheard(setup, m, op, w);
    } else if Sender(setup, m, op, w).Some? {
      var n := Sender(setup, m, op, w).value;
      UntakenUnsigned(setup, m, op, w);
      UnsignedUnheard(setup, n, RequestOf(setup, n, op, w.jti), Authorizes(op), Forgets(op), w);
      PerformSends(setup, m, op, w);
    }
  }

  lemma PerformSends(setup: Setup, m: Machine, op: Operation, w: World)
    requires !op.End? && Sender(setup, m, op, w).Some?
    ensures var n := Sender(setup, m, op, w).value;
            Perform(setup, m, op, w)
            == Execute(setup, n, RequestOf(setup, n, op, w.jti), Authorizes(op), Forgets(op), w)
  {
  }

  lemma UntakenUnsigned(setup: Setup, m: Machine, op: Operation, w: World)
    requires !op.End? && Taken(setup, m, op, w).None? && Sender(setup, m, op, w).Some?
    ensures var n := Sender(setup, m, op, w).value;
            var request := RequestOf(setup, n, op, w.jti);
            request.Ok? ==>
              var p := Process(setup.cfg, n.ring, Final(setup.cfg, w.network), request.value);
              p.Ok? ==> !Signed(p.value.response)
  {
    var n := Sender(setup, m, op, w).value;
    var request := RequestOf(setup, n, op, w.jti);
    if request.Ok? {
      assert Sending(setup, m, op, w) == Some((n, request.value));
      var p := Process(setup.cfg, n.ring, Final(setup.cfg, w.network), request.value);
      if p.Ok? {
        assert Answered(setup, m, op, w) == Some((n.(ring := p.value.ring), p.value.response));
      }
    }
  }

  lemma UntakenEndUnheard(setup: Setup, m: Machine, op: Operation, w: World)
    requires op.End? && Taken(setup, m, op, w).None?
    ensures Perform(setup, m, op, w).heard.None?
  {
  }

  lemma UnsignedUnheard(setup: Setup, m: Machine, request: Result<PreparedRequest>, authorizing: bool,
                        forgetMissingKey: bool, w: World)
    requires request.Ok? ==>
               var p := Process(setup.cfg, m.ring, Final(setup.cfg, w.network), request.value);
               p.Ok? ==> !Signed(p.value.response)
    ensures Execute(setup, m, request, authorizing, forgetMissingKey, w).heard.None?
  {
  }

  lemma PerformEnded(setup: Setup, m: Machine, op: Operation, w: World)
    requires op.End? && Taken(setup, m, op, w).Some?
    ensures Perform(setup, m, op, w).heard == Heard(Answered(setup, m, op, w).value.1)
  {
  }

  lemma EndSaves(setup: Setup, m: Machine, op: Operation, w: World) returns (ms: seq<Machine>)
    requires op.End?
    ensures Course(setup, m, op, w, ms)
  {
    var n, last := WithPendingEnd(setup, m, op.reason, w).machine, Perform(setup, m, op, w).machine;
    if Sending(setup, m, op, w).None? {
      ms := [m, last];
    } else {
      ms := SendEndSaves(setup, m, op, w);
    }
  }

  lemma SendEndSaves(setup: Setup, m: Machine, op: Operation, w: World) returns (ms: seq<Machine>)
    requires op.End? && Sending(setup, m, op, w).Some?
    ensures Course(setup, m, op, w, ms)
  {
    var (n, request) := Sending(setup, m, op, w).value;
    var last, posted := SendEnd(setup, n, request, w).machine, Postings(setup.cfg, request, w);
    if Taken(setup, m, op, w).None? {
      match Process(setup.cfg, n.ring, Final(setup.cfg, w.network), request) {
        case Err(f) => CaughtSaves(setup, n, f, true, w, posted, None);
        case Ok(p) =>
      }
      CourseFrom(setup, m, op, w, n, [last]);
      ms := [m, n] + [last];
    } else {
      var o := Taken(setup, m, op, w).value;
      var (received, response) := Answered(setup, m, op, w).value;
      AcceptSaves(setup, received, response, false, w.clock);
      FinishSaves(setup, o, response, w, posted);
      CourseFrom(setup, m, op, w, n, [o.machine, last]);
      ms := [m, n] + [o.machine, last];
    }
  }

  /** Every document that an operation writes can be the last one: the process can stop after any of its saves. */
  lemma EverySave(setup: Setup, m: Machine, op: Operation, w: World, n: nat) returns (a: Answer)
    requires |m.written| <= n <= |Operate(setup, m, op, w).machine.written|
    ensures Interrupted(setup, m, op, w, a) || a == Operate(setup, m, op, w)
    ensures a.machine.written == Operate(setup, m, op, w).machine.written[..n] && StoreAt(m, a.machine, n)
  {
    var loaded := Loaded(setup, m, op, w);
    if loaded.failure.Some? || op.Restart? {
      a := if n == |m.written| then Answer(m, Err(LocalFailure), [], None) else Operate(setup, m, op, w);
    } else if !op.End? && Sender(setup, loaded.machine, op, w).None? {
      a := Answer(m, Err(LocalFailure), [], None);
    } else {
      a := SaveOf(setup, m, op, w, n);
    }
  }

  lemma SaveOf(setup: Setup, m: Machine, op: Operation, w: World, n: nat) returns (a: Answer)
    requires |m.written| <= n <= |Operate(setup, m, op, w).machine.written|
    requires Loaded(setup, m, op, w).failure.None? && !op.Restart?
    requires op.End? || Sender(setup, Loaded(setup, m, op, w).machine, op, w).Some?
    ensures Interrupted(setup, m, op, w, a) || a == Operate(setup, m, op, w)
    ensures a.machine.written == Operate(setup, m, op, w).machine.written[..n] && StoreAt(m, a.machine, n)
  {
    var ms := CourseOf(setup, m, op, w);
    var i := OneOf(ms, n);
    a := StopAt(setup, m, op, w, ms, i);
  }

  lemma CourseOf(setup: Setup, m: Machine, op: Operation, w: World) returns (ms: seq<Machine>)
    requires Loaded(setup, m, op, w).failure.None? && !op.Restart?
    requires op.End? || Sender(setup, Loaded(setup, m, op, w).machine, op, w).Some?
    ensures Course(setup, Loaded(setup, m, op, w).machine, op, w, ms)
    ensures ms[0].written == m.written && ms[0].store == m.store
    ensures ms[|ms| - 1].written == Operate(setup, m, op, w).machine.written
  {
    ms := PerformSaves(setup, Loaded(setup, m, op, w).machine, op, w);
    LoadedLog(setup, m, op, w);
  }

  lemma PerformSaves(setup: Setup, m: Machine, op: Operation, w: World) returns (ms: seq<Machine>)
    requires op.End? || Sender(setup, m, op, w).Some?
    ensures Course(setup, m, op, w, ms)
  {
    if op.End? {
      ms := EndSaves(setup, m, op, w);
    } else {
      ms := ExecuteSaves(setup, m, op, w);
    }
  }

  lemma LoadedLog(setup: Setup, m: Machine, op: Operation, w: World)
    requires Loaded(setup, m, op, w).failure.None? && !op.Restart?
    ensures var o := Loaded(setup, m, op, w).machine; o.written == m.written && o.store == m.store
    ensures Operate(setup, m, op, w) == Perform(setup, Loaded(setup, m, op, w).machine, op, w)
  {
  }

  lemma StopAt(setup: Setup, m: Machine, op: Operation, w: World, ms: seq<Machine>, i: nat) returns (a: Answer)
    requires Loaded(setup, m, op, w).failure.None? && !op.Restart?
    requires Course(setup, Loaded(setup, m, op, w).machine, op, w, ms) && i < |ms|
    ensures Interrupted(setup, m, op, w, a) || a == Operate(setup, m, op, w)
    ensures a.machine.written == ms[i].written && a.machine.store == ms[i].store
  {
    LoadedLog(setup, m, op, w);
    if i == 0 {
      a := Answer(m, Err(LocalFailure), [], None);
    } else if i == |ms| - 1 {
      a := Operate(setup, m, op, w);
    } else if i == 1 {
      a := Answer(ms[1], Err(LocalFailure), [], None);
      EarlyStops(setup, m, op, w, ms[1]);
    } else {
      a := Operate(setup, m, op, w).(machine := ms[i]);
      LateStops(setup, m, op, w, ms[i]);
    }
  }

  lemma EarlyStops(setup: Setup, m: Machine, op: Operation, w: World, c: Machine)
    requires Loaded(setup, m, op, w).failure.None? && !op.Restart?
    requires Early(setup, Loaded(setup, m, op, w).machine, op, w, c)
    ensures Interrupted(setup, m, op, w, Answer(c, Err(LocalFailure), [], None))
  {
  }

  lemma LateStops(setup: Setup, m: Machine, op: Operation, w: World, c: Machine)
    requires Loaded(setup, m, op, w).failure.None? && !op.Restart?
    requires Late(setup, Loaded(setup, m, op, w).machine, op, w, c)
    ensures Interrupted(setup, m, op, w, Operate(setup, m, op, w).(machine := c))
  {
  }
}
