/** Several processes with one saved document: each operation starts from what was saved last, whoever saved it. */
module Peers {
  import opened Persistence
  import opened Session
  import opened Crashes
  import opened Safety

  /** What getting the state back depends on besides the store. */
  predicate SameInstallation(m: Machine, n: Machine) {
    m.state.thumbprint == n.state.thumbprint && m.state.keyReference == n.state.keyReference
  }

  /** Both see the same store. */
  predicate SameStore(m: Machine, n: Machine) {
    m.store == n.store && m.written == n.written
  }

  /** A reload that succeeds forgets the process's own memory. */
  lemma ReloadForgets(setup: Setup, m: Machine, n: Machine, r: Reading)
    requires setup.cfg.persistent && SameStore(m, n) && SameInstallation(m, n)
    ensures Reload(setup, m, r).failure.None? <==> Reload(setup, n, r).failure.None?
    ensures Reload(setup, m, r).failure.None? ==> Reload(setup, m, r) == Reload(setup, n, r)
    ensures Reload(setup, m, r).failure.Some?
            ==> Reload(setup, m, r).machine == m.(ring := Reload(setup, m, r).machine.ring)
  {
  }

  /** So does every operation: it is as if the process that saved last had performed it. */
  lemma OperateForgets(setup: Setup, m: Machine, n: Machine, op: Operation, w: World)
    requires setup.cfg.persistent && SameStore(m, n) && SameInstallation(m, n)
    ensures var a := Operate(setup, m, op, w);
            || a == Operate(setup, n, op, w)
            || (a.machine == m.(ring := a.machine.ring) && a.result.Err? && a.posted == [])
  {
    ReloadForgets(setup, m, n, w.clock(Loading));
  }

  /** And every operation that is interrupted. */
  lemma InterruptedForgets(setup: Setup, m: Machine, n: Machine, op: Operation, w: World, a: Answer)
    requires setup.cfg.persistent && SameStore(m, n) && SameInstallation(m, n) && Interrupted(setup, m, op, w, a)
    ensures Interrupted(setup, n, op, w, a) || (a.machine == m && a.posted == [])
  {
    ReloadForgets(setup, m, n, w.clock(Loading));
  }

  // ---- any number of processes ----

  /** Process i becomes m, and the others see the store of m. */
  function Shared(peers: seq<Machine>, i: nat, m: Machine): (after: seq<Machine>)
    requires i < |peers|
    ensures |after| == |peers|
  {
    seq(|peers|, k requires 0 <= k < |peers| => if k == i then m else peers[k].(store := m.store, written := m.written))
  }

  /** All processes belong to the installation and see the document that `saved` was saved as. */
  ghost predicate Sharing(setup: Setup, peers: seq<Machine>, saved: Machine) {
    && Inv(setup, saved)
    && forall k | 0 <= k < |peers| :: SameStore(peers[k], saved) && SameInstallation(peers[k], saved)
  }

  /**
   * What a process does under the lock, interrupted or not, either is what the session that was saved could have done,
   * with the same answer, or it changes nothing that is saved and sends nothing.
   */
  lemma ActIsOperation(setup: Setup, peers: seq<Machine>, saved: Machine, i: nat, step: Step, a: Answer)
    requires setup.cfg.persistent && i < |peers| && Sharing(setup, peers, saved) && Performs(setup)(peers[i], step, a)
    ensures var after := Shared(peers, i, a.machine);
            || (Performs(setup)(saved, step, a) && Sharing(setup, after, a.machine))
            || (a.machine.state == peers[i].state && a.posted == [] && Sharing(setup, after, saved))
  {
    PerformsIs(setup, peers[i], step, a);
    PerformsIs(setup, saved, step, a);
    if a == Operate(setup, peers[i], step.op, step.world) {
      OperateForgets(setup, peers[i], saved, step.op, step.world);
    } else {
      InterruptedForgets(setup, peers[i], saved, step.op, step.world, a);
    }
    if Performs(setup)(saved, step, a) {
      PerformsInv(setup, saved, step, a);
      StillSharing(setup, peers, saved, i, a.machine, a.machine);
    } else {
      StillSharing(setup, peers, saved, i, a.machine, saved);
    }
  }

  lemma StillSharing(setup: Setup, peers: seq<Machine>, saved: Machine, i: nat, m: Machine, next: Machine)
    requires i < |peers| && Sharing(setup, peers, saved)
    requires Inv(setup, next) && SameInstallation(saved, next)
    requires SameStore(m, next) && SameInstallation(m, next)
    ensures Sharing(setup, Shared(peers, i, m), next)
  {
  }

  lemma PerformsInv(setup: Setup, m: Machine, step: Step, a: Answer)
    requires Inv(setup, m) && Performs(setup)(m, step, a)
    ensures Inv(setup, a.machine) && SameInstallation(m, a.machine)
  {
    assert Before(m, [a], 0) == m && Before(m, [a], 1) == a.machine;
    RunInv(setup, m, [step], [a], 1);
  }

  /** One process has its turn under the lock. */
  datatype Turn = Turn(peer: nat, step: Step, answer: Answer)

  /** The processes after a sequence of turns. */
  function After(peers: seq<Machine>, turns: seq<Turn>): (after: seq<Machine>)
    requires forall k | 0 <= k < |turns| :: turns[k].peer < |peers|
    ensures |after| == |peers|
    decreases |turns|
  {
    if |turns| == 0 then peers
    else
      var last := turns[|turns| - 1];
      Shared(After(peers, turns[..|turns| - 1]), last.peer, last.answer.machine)
  }

  /** Every turn is an operation of its process, interrupted or not. */
  ghost predicate Interleaved(setup: Setup, peers: seq<Machine>, turns: seq<Turn>)
    decreases |turns|
  {
    |turns| == 0
    || (var known, last := turns[..|turns| - 1], turns[|turns| - 1];
        && Interleaved(setup, peers, known) && last.peer < |peers| && (forall t | t in known :: t.peer < |peers|)
        && Performs(setup)(After(peers, known)[last.peer], last.step, last.answer))
  }

  /**
   * Every interleaving of the operations of any number of processes, of which any can stop at any time, is a run of one
   * session, as far as what is saved and sent is concerned: the operations that did not fail to load, in their order
   * and with their answers. So whatever holds over every run of a session holds for the document the processes share.
   */
  lemma {:induction false} EveryInterleaving(setup: Setup, peers: seq<Machine>, saved: Machine, turns: seq<Turn>)
    returns (steps: seq<Step>, answers: seq<Answer>)
    requires setup.cfg.persistent && Sharing(setup, peers, saved)
    requires Interleaved(setup, peers, turns) && forall k | 0 <= k < |turns| :: turns[k].peer < |peers|
    ensures |steps| <= |turns| && Run(setup, saved, steps, answers)
    ensures Sharing(setup, After(peers, turns), Before(saved, answers, |answers|))
    decreases |turns|
  {
    if |turns| == 0 {
      steps, answers := [], [];
    } else {
      var known, last := turns[..|turns| - 1], turns[|turns| - 1];
      var middle := After(peers, known);
      steps, answers := EveryInterleaving(setup, peers, saved, known);
      var before := Before(saved, answers, |answers|);
      ActIsOperation(setup, middle, before, last.peer, last.step, last.answer);
      if Performs(setup)(before, last.step, last.answer) && Sharing(setup, After(peers, turns), last.answer.machine) {
        LinkedLonger(Performs(setup), saved, steps, answers, last.step, last.answer);
        steps, answers := steps + [last.step], answers + [last.answer];
      }
    }
  }
}
