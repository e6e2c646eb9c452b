/**
 What holds after any number of runs of one registration command, however each of them ended: which ids the
 availability checks and proofs use, what the state file can say, and how often the machine is registered.
 */
module RegistrationRuns {
  import opened Common
  import opened Registration

  /** The requested steps that leave a mark in the state file, in the order they are taken. */
  function Requested(command: string): string {
    FirstSteps(command, 3)
  }

  /** Those among the first k of r, R, a. */
  function FirstSteps(command: string, k: nat): string {
    (if k >= 1 && 'r' in command then "r" else "")
    + (if k >= 2 && 'R' in command then "R" else "")
    + (if k >= 3 && 'a' in command then "a" else "")
  }

  predicate Attests(command: string) {
    'r' in command || 'R' in command
  }

  predicate ProgressOf(steps: string, command: string) {
    exists k: nat :: k <= 3 && steps == FirstSteps(command, k)
  }

  /**
   A record of progress that agrees with the chain: the ids in it are the last ones, as soon as they are complete, and
   stay so when what waits is mined.
   */
  predicate Agrees(state: RegistrationState, w: World, command: string) {
    && ProgressOf(state.completedSteps, command)
    && (Attests(command) && FirstSteps(command, 2) <= state.completedSteps ==>
          LastAttestation(Future(w)) == Some(state.teeAttestInstructionId))
    && ('r' in state.completedSteps ==> w.chain.registrations >= 1)
    && ('a' in state.completedSteps ==>
          && OnlyProductions(w.waiting)
          && LastCheck(w.chain) == Some(state.instructionId)
          && (Attests(command) ==> CheckIsOfLastAttestation(w.chain)))
  }

  predicate OnlyProductions(ts: seq<Transaction>) {
    forall i :: 0 <= i < |ts| ==> ts[i] == ToProduction
  }

  predicate CheckIsOfLastAttestation(c: Chain) {
    c.checks != [] && LastAttestation(c) == Some(c.checks[|c.checks| - 1].attestation)
  }

  predicate ChecksAreCurrent(c: Chain) {
    forall k :: k in c.checks ==> k.lastIssued == Some(k.attestation)
  }

  predicate ProofsAreCurrent(c: Chain) {
    forall k :: k in c.proofs ==> k.lastRequested == Some(k.check)
  }

  predicate Sane(c: Chain, command: string) {
    && (Attests(command) ==> ChecksAreCurrent(c))
    && ('a' in command ==> ProofsAreCurrent(c))
    && ('a' !in command ==> c.checks == [])
    && ('p' !in command ==> c.proofs == [])
  }

  predicate Inv(w: World, command: string) {
    && Sane(Future(w), command)
    && (w.file.Saved? ==> Agrees(w.file.state, w, command))
  }

  /** Between steps: the file is not ahead of the process, and the ids in hand are the last ones. */
  predicate InvAt(p: Process, command: string, done: nat) {
    && Inv(p.w, command)
    && (p.running ==>
          && Agrees(p.state, p.w, command)
          && FirstSteps(command, done) <= p.state.completedSteps
          && (p.w.file.Saved? ==> p.w.file.state.completedSteps <= p.state.completedSteps)
          && (Attests(command) && FirstSteps(command, 2) <= FirstSteps(command, done) ==>
                LastAttestation(Future(p.w)) == Some(p.attestation))
          && ('a' in command && done >= 3 ==> LastCheck(p.w.chain) == Some(p.check)))
  }

  predicate NoRepeats(steps: string) {
    forall i, j :: 0 <= i < j < |steps| ==> steps[i] != steps[j]
  }

  lemma Letters(steps: string, command: string)
    requires ProgressOf(steps, command)
    ensures forall l :: l in steps ==> l in command
    ensures 'r' in steps ==> FirstSteps(command, 1) <= steps
    ensures 'R' in steps ==> FirstSteps(command, 2) <= steps
    ensures 'a' in steps ==> FirstSteps(command, 3) <= steps
    ensures 'r' in command && 'r' !in steps ==> steps == ""
    ensures 'R' in command && 'R' !in steps ==> steps <= FirstSteps(command, 1)
    ensures 'a' in command && 'a' !in steps ==> steps <= FirstSteps(command, 2)
  {
    var k: nat :| k <= 3 && steps == FirstSteps(command, k);
    assert k == 0 || k == 1 || k == 2 || k == 3;
  }

  lemma ProgressIsPrefix(steps: string, command: string)
    requires ProgressOf(steps, command)
    ensures steps <= Requested(command) && NoRepeats(steps)
  {
    var k: nat :| k <= 3 && steps == FirstSteps(command, k);
    assert k == 0 || k == 1 || k == 2 || k == 3;
  }

  lemma Lacking(steps: string, command: string, k: nat, letter: char)
    requires ProgressOf(steps, command) && k < 3 && letter == "rRa"[k] && letter in command && letter !in steps
    requires FirstSteps(command, k) <= steps
    ensures steps == FirstSteps(command, k)
  {
    Letters(steps, command);
    hide ProgressOf;
    assert letter == 'r' || letter == 'R' || letter == 'a';
  }

  /** The next step to take: what its letter adds to a record that lacks it. */
  lemma Adds(steps: string, fileSteps: string, command: string, k: nat, letter: char)
    requires ProgressOf(steps, command) && k < 3 && letter == "rRa"[k] && letter in command && letter !in steps
    requires FirstSteps(command, k) <= steps && fileSteps <= steps
    ensures steps + [letter] == FirstSteps(command, k + 1) && ProgressOf(steps + [letter], command)
    ensures letter !in fileSteps && !(FirstSteps(command, k + 1) <= fileSteps)
    ensures k < 2 ==> 'a' !in steps + [letter]
  {
    Lacking(steps, command, k, letter);
    assert FirstSteps(command, k + 1) == FirstSteps(command, k) + [letter];
    assert letter in FirstSteps(command, k + 1);
  }

  lemma StageOne(command: string)
    ensures FirstSteps(command, 0) == ""
    ensures 'r' !in command ==> FirstSteps(command, 1) == ""
    ensures 'R' !in command ==> FirstSteps(command, 2) == FirstSteps(command, 1)
    ensures 'a' !in command ==> FirstSteps(command, 3) == FirstSteps(command, 2)
    ensures 'R' in command ==> !(FirstSteps(command, 2) <= FirstSteps(command, 1))
  {
  }

  // ---- the chain and what waits ---------------------------------------------------------------

  lemma {:induction false} MineAllJoins(c: Chain, a: seq<Transaction>, b: seq<Transaction>)
    ensures MineAll(c, a + b) == MineAll(MineAll(c, a), b)
    decreases |a|
  {
    hide Mine;
    if a != [] {
      assert (a + b)[0] == a[0] && (a + b)[1..] == a[1..] + b;
      MineAllJoins(Mine(c, a[0]), a[1..], b);
    } else {
      assert a + b == b;
    }
  }

  lemma MineSomeKeepsFuture(w: World, n: nat)
    ensures Future(MineSome(w, n)) == Future(w)
  {
    if n < |w.waiting| {
      MineAllJoins(w.chain, w.waiting[..n], w.waiting[n..]);
      assert w.waiting[..n] + w.waiting[n..] == w.waiting;
    }
    hide Mine;
  }

  /** Whenever it is mined, what is sent comes after all that was sent before. */
  lemma SendAddsToFuture(w: World, t: Transaction, tx: Tx)
    ensures Future(Send(w, t, tx)) == if tx.NotMined? then Future(w) else Mine(Future(w), t)
  {
    MineAllJoins(w.chain, w.waiting, [t]);
    assert MineAll(Future(w), [t]) == MineAll(Mine(Future(w), t), [t][1..]);
    assert [t][1..] == [];
    hide Mine;
  }

  /** Productions change nothing that a record of progress speaks about. */
  lemma {:induction false} ProductionsChangeLittle(c: Chain, ts: seq<Transaction>)
    requires OnlyProductions(ts)
    ensures var d := MineAll(c, ts); d == c.(productions := d.productions)
    decreases |ts|
  {
    if ts != [] {
      ProductionsChangeLittle(Mine(c, ts[0]), ts[1..]);
    }
  }

  lemma {:induction false} MiningGrows(c: Chain, ts: seq<Transaction>)
    ensures var d := MineAll(c, ts);
      && c.registrations <= d.registrations && c.productions <= d.productions
      && c.checks <= d.checks && d.proofs == c.proofs && c.nextId <= d.nextId
    decreases |ts|
  {
    if ts != [] {
      MiningGrows(Mine(c, ts[0]), ts[1..]);
    }
  }

  /** What holds of the chain with all mined holds of the chain now. */
  lemma SaneNow(w: World, command: string)
    requires Sane(Future(w), command)
    ensures Sane(w.chain, command)
  {
    MiningGrows(w.chain, w.waiting);
    var c, d := w.chain, Future(w);
    forall k | k in c.checks
      ensures k in d.checks
    {
      var i :| 0 <= i < |c.checks| && c.checks[i] == k;
      assert d.checks[i] == k;
    }
    hide MineAll;
  }

  lemma MineSomeKeepsAgreement(w: World, n: nat, state: RegistrationState, command: string)
    requires Agrees(state, w, command)
    ensures Agrees(state, MineSome(w, n), command)
  {
    MineSomeKeepsFuture(w, n);
    var k := if n < |w.waiting| then n else |w.waiting|;
    assert w.waiting[..|w.waiting|] == w.waiting;
    MiningGrows(w.chain, w.waiting[..k]);
    if 'a' in state.completedSteps {
      ProductionsChangeLittle(w.chain, w.waiting[..k]);
    }
    hide MineAll, FirstSteps, ProgressOf;
  }

  lemma MineSomeKeeps(w: World, n: nat, command: string)
    requires Inv(w, command)
    ensures Inv(MineSome(w, n), command)
  {
    MineSomeKeepsFuture(w, n);
    if w.file.Saved? {
      MineSomeKeepsAgreement(w, n, w.file.state, command);
    }
    hide Agrees, Sane, Future;
  }

  /** The world with a transaction mined, and all that waited before it. */
  function Mined1(w: World, t: Transaction): World {
    w.(chain := Mine(Future(w), t), waiting := [])
  }

  /** Mined, lost or pending, then a save that may fail: what holds if it was mined and not saved holds in any case. */
  lemma TakeStepKeeps(p: Process, s: StepScript, t: Transaction, state: RegistrationState, command: string, done: nat)
    requires p.running && Inv(p.w, command)
    requires InvAt(p.(w := Mined1(p.w, t), state := state), command, done)
    requires Inv(p.w.(waiting := p.w.waiting + [t]), command)
    ensures InvAt(TakeStep(p, s, t, state), command, done)
  {
    hide FirstSteps, Sane, Attests, ProgressOf, Mine;
  }

  /** A record that lacks the step that is taken next stays in agreement while its transaction waits. */
  lemma PendingKeeps(w: World, t: Transaction, command: string)
    requires Inv(w, command) && Sane(Mine(Future(w), t), command)
    requires w.file.Saved? && t != ToProduction ==> 'a' !in w.file.state.completedSteps
    requires w.file.Saved? && Attests(command) && FirstSteps(command, 2) <= w.file.state.completedSteps ==>
      !t.Register? && !t.RequestAttestation?
    ensures Inv(w.(waiting := w.waiting + [t]), command)
  {
    SendAddsToFuture(w, t, Pending);
    hide FirstSteps, ProgressOf, MineAll, Future;
  }

  lemma StepRKeeps(p: Process, command: string, s: Script)
    requires InvAt(p, command, 0)
    ensures InvAt(StepR(p, command, s), command, 1)
  {
    hide FirstSteps, ProgressOf, TakeStep;
    if p.running {
      Letters(p.state.completedSteps, command);
      StageOne(command);
      if 'r' in command && 'r' !in p.state.completedSteps {
        var fileSteps := if p.w.file.Saved? then p.w.file.state.completedSteps else "";
        Adds(p.state.completedSteps, fileSteps, command, 0, 'r');
        var t := if Knows(p.w, s) then RequestAttestation else Register;
        var looked := p.w.(lookups := p.w.lookups + [LookupOf(p.w, s)]);
        var state := p.state.(completedSteps := p.state.completedSteps + "r", teeAttestInstructionId := NextId(p.w));
        MiningGrows(p.w.chain, p.w.waiting);
        assert Future(looked) == Future(p.w);
        hide MineAll, Future;
        assert Inv(looked, command);
        assert Sane(Mine(Future(looked), t), command);
        PendingKeeps(looked, t, command);
        MinedIsFuture(looked, t);
        assert Inv(Mined1(looked, t), command);
        TakeStepKeeps(p.(w := looked, attestation := NextId(p.w)), s.register, t, state, command, 1);
      }
    }
  }

  lemma MinedIsFuture(w: World, t: Transaction)
    ensures Future(Mined1(w, t)) == Mined1(w, t).chain
  {
    hide Mine;
  }

  lemma StepRRKeeps(p: Process, command: string, s: Script)
    requires InvAt(p, command, 1)
    ensures InvAt(StepRR(p, command, s), command, 2)
  {
    hide FirstSteps, ProgressOf, TakeStep;
    if p.running {
      Letters(p.state.completedSteps, command);
      StageOne(command);
      if 'R' in command && 'R' !in p.state.completedSteps {
        var fileSteps := if p.w.file.Saved? then p.w.file.state.completedSteps else "";
        Adds(p.state.completedSteps, fileSteps, command, 1, 'R');
        var state := p.state.(completedSteps := p.state.completedSteps + "R", teeAttestInstructionId := NextId(p.w));
        MiningGrows(p.w.chain, p.w.waiting);
        hide MineAll, Future;
        assert Sane(Mine(Future(p.w), RequestAttestation), command);
        PendingKeeps(p.w, RequestAttestation, command);
        MinedIsFuture(p.w, RequestAttestation);
        assert Inv(Mined1(p.w, RequestAttestation), command);
        TakeStepKeeps(p.(attestation := NextId(p.w)), s.attest, RequestAttestation, state, command, 2);
      }
    }
  }

  lemma StepAKeeps(p: Process, command: string, given: Id, s: Script)
    requires InvAt(p, command, 2)
    ensures InvAt(StepA(p, command, given, s), command, 3)
  {
    hide FirstSteps, ProgressOf, TakeStep;
    if p.running {
      Letters(p.state.completedSteps, command);
      StageOne(command);
      if 'a' in command && 'a' !in p.state.completedSteps && !s.preflightFails {
        var fileSteps := if p.w.file.Saved? then p.w.file.state.completedSteps else "";
        Adds(p.state.completedSteps, fileSteps, command, 2, 'a');
        var t := RequestCheck(p.attestation);
        var state := p.state.(completedSteps := p.state.completedSteps + "a", instructionId := NextId(p.w));
        MiningGrows(p.w.chain, p.w.waiting);
        hide MineAll, Future;
        assert Sane(Mine(Future(p.w), t), command);
        PendingKeeps(p.w, t, command);
        MinedIsFuture(p.w, t);
        assert Inv(Mined1(p.w, t), command);
        TakeStepKeeps(p.(check := NextId(p.w)), s.check, t, state, command, 3);
      }
    }
  }

  lemma {:induction false} MiningKeepsProofs(c: Chain, ts: seq<Transaction>, proofs: seq<ProofFetch>)
    ensures MineAll(c.(proofs := proofs), ts) == MineAll(c, ts).(proofs := proofs)
    decreases |ts|
  {
    if ts != [] {
      MiningKeepsProofs(Mine(c, ts[0]), ts[1..], proofs);
    }
  }

  /** A proof that is fetched changes no record of progress, and keeps proofs current if it is. */
  lemma FetchKeeps(w: World, check: Id, command: string)
    requires Inv(w, command) && 'p' in command && ('a' in command ==> LastCheck(w.chain) == Some(check))
    ensures Inv(w.(chain := w.chain.(proofs := w.chain.proofs + [ProofFetch(check, LastCheck(w.chain))])), command)
  {
    MiningKeepsProofs(w.chain, w.waiting, w.chain.proofs + [ProofFetch(check, LastCheck(w.chain))]);
    MiningGrows(w.chain, w.waiting);
    hide MineAll, FirstSteps, ProgressOf;
  }

  lemma ProductionKeeps(w: World, tx: Tx, command: string)
    requires Inv(w, command)
    ensures Inv(Send(w, ToProduction, tx), command)
  {
    SendAddsToFuture(w, ToProduction, tx);
    MiningGrows(w.chain, w.waiting);
    if OnlyProductions(w.waiting) {
      ProductionsChangeLittle(w.chain, w.waiting);
    }
    hide MineAll, FirstSteps, ProgressOf;
  }

  /** The last step keeps the invariant; it is the last, so nothing is in hand after it. */
  lemma StepPKeeps(p: Process, command: string, s: Script)
    requires InvAt(p, command, 3)
    ensures Inv(StepP(p, command, s).w, command)
  {
    if p.running && 'p' in command && !s.proofFails {
      FetchKeeps(p.w, p.check, command);
      var c := p.w.chain;
      var fetched := p.w.(chain := c.(proofs := c.proofs + [ProofFetch(p.check, LastCheck(c))]));
      ProductionKeeps(fetched, s.production, command);
    }
    hide Inv, Send;
  }

  lemma InvBegins(w: World, command: string)
    requires Inv(w, command) && Load(w.file).Some?
    ensures InvAt(Process(w, Load(w.file).value, 0, 0, true), command, 0)
  {
    assert FirstSteps(command, 0) == "";
  }

  lemma RemovalKeeps(w: World, command: string)
    requires Inv(w, command)
    ensures Inv(w.(file := Absent), command)
  {
  }

  lemma RunOnceKeeps(w: World, command: string, given: Id, s: Script)
    requires Inv(w, command)
    ensures Inv(RunOnce(w, command, given, s).0, command)
  {
    hide StepR, StepRR, StepA, StepP, Inv, MineSome;
    var w0 := MineSome(w, s.minedBefore);
    MineSomeKeeps(w, s.minedBefore, command);
    MineSomeOutside(w, s.minedBefore);
    if Load(w.file).Some? {
      var p0 := Process(w0, Load(w.file).value, 0, 0, true);
      InvBegins(w0, command);
      StepRKeeps(p0, command, s);
      var p1 := StepR(p0, command, s);
      StepRRKeeps(p1, command, s);
      var p2 := StepRR(p1, command, s);
      StepAKeeps(p2, command, given, s);
      StepPKeeps(StepA(p2, command, given, s), command, s);
      RemovalKeeps(StepP(StepA(p2, command, given, s), command, s).w, command);
    }
  }

  lemma {:induction false} RunsKeep(command: string, given: Id, scripts: seq<Script>)
    ensures Inv(Runs(GENESIS, command, given, scripts), command)
  {
    hide RunOnce;
    if scripts != [] {
      RunsKeep(command, given, scripts[..|scripts| - 1]);
      RunOnceKeeps(Runs(GENESIS, command, given, scripts[..|scripts| - 1]), command, given, scripts[|scripts| - 1]);
    }
  }

  // ---- the main results --------------------------------------------------------------------

  const FINE := StepScript(false, Mined, Written, false)

  /** A run in which nothing goes wrong; what waits from earlier runs need not be mined before it. */
  const CLEAN := Script(0, false, false, FINE, FINE, false, FINE, false, Mined, false)

  lemma OneRun(command: string, given: Id, s: Script)
    ensures Runs(GENESIS, command, given, [s]) == RunOnce(GENESIS, command, given, s).0
  {
    assert [s][..0] == [];
    assert Runs(GENESIS, command, given, []) == GENESIS;
  }

  /** Availability checks always name the last attestation issued exactly for the commands that request one. */
  lemma ChecksNameLastAttestation(command: string)
    ensures (forall given, scripts :: ChecksAreCurrent(Future(Runs(GENESIS, command, given, scripts))))
            <==> Attests(command) || 'a' !in command
  {
    if Attests(command) || 'a' !in command {
      forall given, scripts ensures ChecksAreCurrent(Future(Runs(GENESIS, command, given, scripts))) {
        RunsKeep(command, given, scripts);
      }
    } else {
      OneRun(command, 0, CLEAN);
      CleanStart(command, 0);
      var c := RunOnce(GENESIS, command, 0, CLEAN).0.chain;
      assert c.checks == [AvailabilityCheck(0, None, 1)];
      assert c.checks[0] in c.checks;
      assert !ChecksAreCurrent(Future(Runs(GENESIS, command, 0, [CLEAN])));
    }
  }

  lemma CleanStart(command: string, given: Id)
    ensures !Attests(command) ==> var (w, ok) := RunOnce(GENESIS, command, given, CLEAN);
      && w.waiting == []
      && w.chain.checks == (if 'a' in command then [AvailabilityCheck(0, None, 1)] else [])
      && ('a' !in command ==> w.chain.proofs == if 'p' in command then [ProofFetch(given, None)] else [])
  {
  }

  /** Proofs are always those of the last check requested exactly for the commands that request one. */
  lemma ProofsAreForLastCheck(command: string)
    ensures (forall given, scripts :: ProofsAreCurrent(Runs(GENESIS, command, given, scripts).chain))
            <==> 'a' in command || 'p' !in command
  {
    if 'a' in command || 'p' !in command {
      forall given, scripts ensures ProofsAreCurrent(Runs(GENESIS, command, given, scripts).chain) {
        RunsKeep(command, given, scripts);
        SaneNow(Runs(GENESIS, command, given, scripts), command);
      }
    } else {
      OneRun(command, 0, CLEAN);
      var c := RunOnce(GENESIS, command, 0, CLEAN).0.chain;
      assert c.proofs == [ProofFetch(0, None)];
      assert c.proofs[0] in c.proofs;
      assert !ProofsAreCurrent(Runs(GENESIS, command, 0, [CLEAN]).chain);
    }
  }

  /** The state file only ever lists a beginning of the requested steps, none of them twice. */
  lemma CompletedStepsArePrefix(command: string, given: Id, scripts: seq<Script>)
    ensures var file := Runs(GENESIS, command, given, scripts).file;
            file.Saved? ==> file.state.completedSteps <= Requested(command) && NoRepeats(file.state.completedSteps)
  {
    RunsKeep(command, given, scripts);
    var file := Runs(GENESIS, command, given, scripts).file;
    if file.Saved? {
      ProgressIsPrefix(file.state.completedSteps, command);
    }
  }

  lemma CleanSteps(p: Process, command: string, given: Id)
    requires p.running
    ensures StepR(p, command, CLEAN).running && StepRR(p, command, CLEAN).running
    ensures StepA(p, command, given, CLEAN).running && StepP(p, command, CLEAN).running
  {
    hide Send;
  }

  lemma AllDone(steps: string, command: string)
    requires FirstSteps(command, 3) <= steps
    ensures forall l :: l in "rRa" && l in command ==> l in steps
  {
    forall l | l in "rRa" && l in command ensures l in steps {
      assert l in FirstSteps(command, 3);
      var i :| 0 <= i < |FirstSteps(command, 3)| && FirstSteps(command, 3)[i] == l;
      assert steps[i] == l;
    }
  }

  /** Only the last step fetches proofs and goes to production. */
  lemma ProofsOf(p: Process, command: string, given: Id)
    ensures forall q :: q in [StepR(p, command, CLEAN), StepRR(p, command, CLEAN), StepA(p, command, given, CLEAN)] ==>
              q.w.chain.proofs == p.w.chain.proofs && Future(q.w).productions == Future(p.w).productions
  {
    MiningGrows(p.w.chain, p.w.waiting);
    MinedIsFuture(p.w, RequestAttestation);
    MinedIsFuture(p.w, Register);
    MinedIsFuture(p.w, RequestCheck(p.attestation));
    hide MineAll;
  }

  lemma CleanProduction(p: Process, command: string)
    requires p.running && 'p' in command
    ensures var w, w' := p.w, StepP(p, command, CLEAN).w;
      && w'.waiting == []
      && w'.chain == Future(w).(proofs := w.chain.proofs + [ProofFetch(p.check, LastCheck(w.chain))],
                                productions := Future(w).productions + 1)
  {
    MiningKeepsProofs(p.w.chain, p.w.waiting, p.w.chain.proofs + [ProofFetch(p.check, LastCheck(p.w.chain))]);
    hide MineAll;
  }

  /**
   Whatever the earlier runs did and left waiting, a run in which nothing goes wrong finishes: no state file is left,
   the machine is registered, and the production step uses a proof for the last check, which is of the last attestation.
   */
  lemma CleanRunFinishes(command: string, given: Id, scripts: seq<Script>, n: nat)
    ensures var w := Runs(GENESIS, command, given, scripts);
            var (w', ok) := RunOnce(w, command, given, CLEAN.(minedBefore := n));
            if w.file.Unparsable? then w' == MineSome(w, n) && !ok
            else
              && ok && w'.file == Absent
              && ('r' in command ==> w'.chain.registrations >= 1)
              && ('p' in command ==> w'.waiting == [] && w'.chain.productions == Future(w).productions + 1)
              && ('p' in command && 'a' in command && Attests(command) ==>
                    && |w'.chain.proofs| == |w.chain.proofs| + 1
                    && LastCheck(w'.chain) == Some(w'.chain.proofs[|w.chain.proofs|].check)
                    && CheckIsOfLastAttestation(w'.chain))
  {
    hide StepR, StepRR, StepA, StepP, Runs, FirstSteps, Inv, MineSome;
    var w := Runs(GENESIS, command, given, scripts);
    RunsKeep(command, given, scripts);
    if !w.file.Unparsable? {
      var w0 := MineSome(w, n);
      MineSomeKeeps(w, n, command);
      MineSomeKeepsFuture(w, n);
      MineSomeOutside(w, n);
      var p0 := Process(w0, Load(w.file).value, 0, 0, true);
      var p1 := StepR(p0, command, CLEAN);
      var p2 := StepRR(p1, command, CLEAN);
      var p3 := StepA(p2, command, given, CLEAN);
      SameSteps(p0, command, given, n);
      SameSteps(p1, command, given, n);
      SameSteps(p2, command, given, n);
      SameSteps(p3, command, given, n);
      InvBegins(w0, command);
      StepRKeeps(p0, command, CLEAN);
      StepRRKeeps(p1, command, CLEAN);
      StepAKeeps(p2, command, given, CLEAN);
      CleanSteps(p0, command, given);
      CleanSteps(p1, command, given);
      CleanSteps(p2, command, given);
      CleanSteps(p3, command, given);
      ProofsOf(p0, command, given);
      ProofsOf(p1, command, given);
      ProofsOf(p2, command, given);
      assert InvAt(p3, command, 3);
      AllDone(p3.state.completedSteps, command);
      MiningGrows(p3.w.chain, p3.w.waiting);
      if 'p' in command {
        CleanProduction(p3, command);
        LastStaysLast(p3, command);
      } else {
        NoProduction(p3, command);
      }
      hide MineAll, Future;
    }
  }

  lemma NoProduction(p: Process, command: string)
    requires 'p' !in command
    ensures StepP(p, command, CLEAN) == p
  {
  }

  /** When all steps are done nothing but productions waits, so mining it does not move what is last. */
  lemma LastStaysLast(p: Process, command: string)
    requires p.running && InvAt(p, command, 3)
    ensures 'a' in p.state.completedSteps ==>
      var c, d := p.w.chain, Future(p.w); d == c.(productions := d.productions)
  {
    if 'a' in p.state.completedSteps {
      ProductionsChangeLittle(p.w.chain, p.w.waiting);
    }
    hide MineAll, FirstSteps;
  }

  lemma MineSomeOutside(w: World, n: nat)
    ensures MineSome(w, n).file == w.file && MineSome(w, n).lookups == w.lookups
    ensures MineSome(w, n).chain.proofs == w.chain.proofs
  {
    MiningGrows(w.chain, w.waiting);
    if n < |w.waiting| {
      MiningGrows(w.chain, w.waiting[..n]);
    }
    hide MineAll;
  }

  /** How much is mined before a run does not matter to its steps. */
  lemma SameSteps(p: Process, command: string, given: Id, n: nat)
    ensures var s := CLEAN.(minedBefore := n);
      && StepR(p, command, s) == StepR(p, command, CLEAN) && StepRR(p, command, s) == StepRR(p, command, CLEAN)
      && StepA(p, command, given, s) == StepA(p, command, given, CLEAN)
      && StepP(p, command, s) == StepP(p, command, CLEAN)
  {
    hide TakeStep, Send, Future;
  }

  /** A state file that was cut off stops every later run: none does more than find some of what waits mined. */
  lemma {:induction false} GarbledFileBlocks(w: World, command: string, given: Id, scripts: seq<Script>)
    requires w.file.Unparsable?
    ensures var w' := Runs(w, command, given, scripts);
      w'.file == w.file && w'.lookups == w.lookups && Future(w') == Future(w)
  {
    if scripts != [] {
      var before := Runs(w, command, given, scripts[..|scripts| - 1]);
      GarbledFileBlocks(w, command, given, scripts[..|scripts| - 1]);
      MineSomeKeepsFuture(before, scripts[|scripts| - 1].minedBefore);
      MineSomeOutside(before, scripts[|scripts| - 1].minedBefore);
      hide Future, MineSome;
    }
  }
}
