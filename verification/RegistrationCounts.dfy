/** How often the machine is registered, over any number of runs of one registration command. */
module RegistrationCounts {
  import opened Registration
  import opened RegistrationRuns

  /** A lookup that cannot see what is on its way: it failed, or a register was waiting to be mined. */
  predicate Blind(l: Lookup) {
    l.failed || l.pending
  }

  /** A blind lookup, made when a register had been sent, after which the tool sent another one. */
  predicate Misled(l: Lookup) {
    Blind(l) && l.sentBefore > 0 && l.registers
  }

  function Sends(ls: seq<Lookup>): nat {
    if ls == [] then 0 else Sends(ls[..|ls| - 1]) + if ls[|ls| - 1].registers then 1 else 0
  }

  function BlindLookups(ls: seq<Lookup>): nat {
    if ls == [] then 0 else BlindLookups(ls[..|ls| - 1]) + if Blind(ls[|ls| - 1]) then 1 else 0
  }

  /** Each lookup recorded what had been sent before, and only a blind one leads to another register. */
  predicate Recorded(ls: seq<Lookup>) {
    ls == [] ||
    (var last := ls[|ls| - 1];
     && Recorded(ls[..|ls| - 1])
     && last.sentBefore == Sends(ls[..|ls| - 1])
     && (last.registers && last.sentBefore > 0 ==> Blind(last)))
  }

  predicate Counts(w: World) {
    Recorded(w.lookups) && Future(w).registrations == Sends(w.lookups)
  }

  // ---- every step keeps count ----------------------------------------------------------------

  /** If no register waits, mining changes no registration. */
  lemma {:induction false} OnlyRegistersRegister(c: Chain, ts: seq<Transaction>)
    requires Register !in ts
    ensures MineAll(c, ts).registrations == c.registrations
    decreases |ts|
  {
    if ts != [] {
      OnlyRegistersRegister(Mine(c, ts[0]), ts[1..]);
    }
  }

  lemma TakeStepCounts(p: Process, s: StepScript, t: Transaction, state: RegistrationState)
    ensures var q := TakeStep(p, s, t, state);
      && q.w.lookups == p.w.lookups
      && Future(q.w).registrations == Future(p.w).registrations
         + if t.Register? && !s.diesBefore && !s.tx.NotMined? then 1 else 0
  {
    SendAddsToFuture(p.w, t, s.tx);
    hide MineAll;
  }

  lemma LookupIsRecorded(w: World, s: Script)
    requires Counts(w)
    ensures Recorded(w.lookups + [LookupOf(w, s)])
    ensures Sends(w.lookups + [LookupOf(w, s)]) == Sends(w.lookups) + if LookupOf(w, s).registers then 1 else 0
  {
    var ls := w.lookups + [LookupOf(w, s)];
    assert ls[..|ls| - 1] == w.lookups;
    if Register !in w.waiting {
      OnlyRegistersRegister(w.chain, w.waiting);
    }
  }

  lemma StepRCounts(p: Process, command: string, s: Script)
    requires Counts(p.w)
    ensures Counts(StepR(p, command, s).w)
  {
    hide TakeStep, Recorded, Sends, MineAll, LookupOf;
    if p.running && 'r' in command && 'r' !in p.state.completedSteps {
      LookupIsRecorded(p.w, s);
      var looked := p.w.(lookups := p.w.lookups + [LookupOf(p.w, s)]);
      TakeStepCounts(p.(w := looked, attestation := NextId(p.w)), s.register,
        if Knows(p.w, s) then RequestAttestation else Register,
        p.state.(completedSteps := p.state.completedSteps + "r", teeAttestInstructionId := NextId(p.w)));
      RegistersWhenSent(p.w, s);
    }
  }

  lemma RegistersWhenSent(w: World, s: Script)
    ensures LookupOf(w, s).registers == (!Knows(w, s) && !s.register.diesBefore && !s.register.tx.NotMined?)
  {
  }

  lemma OtherStepsCount(p: Process, command: string, given: Id, s: Script)
    requires Counts(p.w)
    ensures Counts(StepRR(p, command, s).w) && Counts(StepA(p, command, given, s).w)
  {
    hide TakeStep, Recorded, Sends, MineAll;
    TakeStepCounts(p.(attestation := NextId(p.w)), s.attest, RequestAttestation,
      p.state.(completedSteps := p.state.completedSteps + "R", teeAttestInstructionId := NextId(p.w)));
    TakeStepCounts(p.(check := NextId(p.w)), s.check, RequestCheck(p.attestation),
      p.state.(completedSteps := p.state.completedSteps + "a", instructionId := NextId(p.w)));
  }

  lemma StepPCounts(p: Process, command: string, s: Script)
    requires Counts(p.w)
    ensures Counts(StepP(p, command, s).w)
  {
    var c := p.w.chain;
    var proofs := c.proofs + [ProofFetch(p.check, LastCheck(c))];
    MiningKeepsProofs(c, p.w.waiting, proofs);
    SendAddsToFuture(p.w.(chain := c.(proofs := proofs)), ToProduction, s.production);
    hide MineAll, Recorded, Sends;
  }

  lemma RunOnceCounts(w: World, command: string, given: Id, s: Script)
    requires Counts(w)
    ensures Counts(RunOnce(w, command, given, s).0)
  {
    hide StepR, StepRR, StepA, StepP, MineAll, Recorded, Sends, MineSome;
    var w0 := MineSome(w, s.minedBefore);
    MineSomeKeepsFuture(w, s.minedBefore);
    MineSomeOutside(w, s.minedBefore);
    if Load(w.file).Some? {
      var p0 := Process(w0, Load(w.file).value, 0, 0, true);
      StepRCounts(p0, command, s);
      var p1 := StepR(p0, command, s);
      OtherStepsCount(p1, command, given, s);
      var p2 := StepRR(p1, command, s);
      OtherStepsCount(p2, command, given, s);
      StepPCounts(StepA(p2, command, given, s), command, s);
    }
  }

  lemma {:induction false} RunsCount(command: string, given: Id, scripts: seq<Script>)
    ensures Counts(Runs(GENESIS, command, given, scripts))
  {
    hide RunOnce;
    if scripts != [] {
      RunsCount(command, given, scripts[..|scripts| - 1]);
      RunOnceCounts(Runs(GENESIS, command, given, scripts[..|scripts| - 1]), command, given, scripts[|scripts| - 1]);
    }
  }

  // ---- at most once ----------------------------------------------------------------------------

  lemma {:induction false} RecordedSends(ls: seq<Lookup>)
    requires Recorded(ls)
    ensures Sends(ls) <= 1 + BlindLookups(ls)
    ensures Sends(ls) <= 1 <==> forall l :: l in ls ==> !Misled(l)
  {
    if ls != [] {
      var n := |ls| - 1;
      RecordedSends(ls[..n]);
      assert ls == ls[..n] + [ls[n]];
      assert forall l :: l in ls <==> l in ls[..n] || l == ls[n];
      assert Misled(ls[n]) <==> ls[n].registers && Sends(ls[..n]) > 0;
      hide Misled, Blind;
    }
  }

  /**
   In every run, with all that waits mined: the machine is registered at most once more than lookups were blind, and
   at most once exactly if no lookup misled the tool.
   */
  lemma RegistersAtMostOnce(command: string, given: Id, scripts: seq<Script>)
    ensures var w := Runs(GENESIS, command, given, scripts);
      && w.chain.registrations <= Future(w).registrations <= 1 + BlindLookups(w.lookups)
      && (Future(w).registrations <= 1 <==> forall l :: l in w.lookups ==> !Misled(l))
  {
    var w := Runs(GENESIS, command, given, scripts);
    RunsCount(command, given, scripts);
    RecordedSends(w.lookups);
    MiningGrows(w.chain, w.waiting);
    hide MineAll, Runs;
  }

  /** Only lookups that are blind in the ways allowed. */
  predicate LookupsWithin(ls: seq<Lookup>, mayFail: bool, mayWait: bool) {
    forall l :: l in ls ==> (l.failed ==> mayFail) && (l.pending ==> mayWait)
  }

  lemma {:induction false} SightedLookups(ls: seq<Lookup>)
    requires LookupsWithin(ls, false, false)
    ensures BlindLookups(ls) == 0
  {
    if ls != [] {
      SightedLookups(ls[..|ls| - 1]);
    }
  }

  lemma NoLookupWithoutR(p: Process, command: string, given: Id, s: Script)
    requires 'r' !in command
    ensures StepR(p, command, s).w.lookups == p.w.lookups && StepRR(p, command, s).w.lookups == p.w.lookups
    ensures StepA(p, command, given, s).w.lookups == p.w.lookups && StepP(p, command, s).w.lookups == p.w.lookups
  {
    hide Mine, MineAll;
  }

  lemma {:induction false} NoLookups(command: string, given: Id, scripts: seq<Script>)
    requires 'r' !in command
    ensures Runs(GENESIS, command, given, scripts).lookups == []
  {
    hide StepR, StepRR, StepA, StepP, MineSome;
    if scripts != [] {
      var w, s := Runs(GENESIS, command, given, scripts[..|scripts| - 1]), scripts[|scripts| - 1];
      NoLookups(command, given, scripts[..|scripts| - 1]);
      MineSomeOutside(w, s.minedBefore);
      if Load(w.file).Some? {
        var p0 := Process(MineSome(w, s.minedBefore), Load(w.file).value, 0, 0, true);
        var p1 := StepR(p0, command, s);
        var p2 := StepRR(p1, command, s);
        NoLookupWithoutR(p0, command, given, s);
        NoLookupWithoutR(p1, command, given, s);
        NoLookupWithoutR(p2, command, given, s);
        NoLookupWithoutR(StepA(p2, command, given, s), command, given, s);
      }
    }
  }

  /**
   A command that registers does so at most once in every run, as far as lookups may fail or be made while a register
   waits, if and only if they may do neither.
   */
  lemma OnceIffLookupsSee(command: string, given: Id, mayFail: bool, mayWait: bool)
    ensures (forall scripts :: var w := Runs(GENESIS, command, given, scripts);
               LookupsWithin(w.lookups, mayFail, mayWait) ==> Future(w).registrations <= 1)
            <==> 'r' !in command || (!mayFail && !mayWait)
  {
    hide Runs, Future;
    if 'r' !in command || (!mayFail && !mayWait) {
      forall scripts | LookupsWithin(Runs(GENESIS, command, given, scripts).lookups, mayFail, mayWait)
        ensures Future(Runs(GENESIS, command, given, scripts)).registrations <= 1
      {
        RegistersAtMostOnce(command, given, scripts);
        if 'r' !in command {
          NoLookups(command, given, scripts);
        } else {
          SightedLookups(Runs(GENESIS, command, given, scripts).lookups);
        }
      }
    } else if mayFail {
      FailedLookupsReachTheBound(command, given, 1);
      RegistersAtMostOnce(command, given, FailingRuns(1));
      assert Future(Runs(GENESIS, command, given, FailingRuns(1))).registrations >= 2;
      assert LookupsWithin(Runs(GENESIS, command, given, FailingRuns(1)).lookups, mayFail, mayWait);
    } else {
      EarlyLookupsReachTheBound(command, given, 1);
      RegistersAtMostOnce(command, given, ImpatientRuns(1));
      assert Future(Runs(GENESIS, command, given, ImpatientRuns(1))).registrations >= 2;
      assert LookupsWithin(Runs(GENESIS, command, given, ImpatientRuns(1)).lookups, mayFail, mayWait);
    }
  }

  // ---- the bound is reached ------------------------------------------------------------------------

  function Repeated(s: Script, n: nat): seq<Script> {
    seq(n, _ => s)
  }

  /** The register is mined, and the tool does not hear of it. */
  const LOST := CLEAN.(register := StepScript(false, MinedButLost, Written, false))

  /** The same after a lookup that fails. */
  const LOST_BLINDLY := LOST.(lookupFails := true)

  /** The register is not mined while the tool waits for it. */
  const IMPATIENT := CLEAN.(register := StepScript(false, Pending, Written, false))

  function FailingRuns(n: nat): seq<Script> {
    [LOST] + Repeated(LOST_BLINDLY, n)
  }

  function ImpatientRuns(n: nat): seq<Script> {
    Repeated(IMPATIENT, n) + [LOST]
  }

  /** A run that gets no further than its register leaves no file. */
  lemma RegisterOnly(w: World, command: string, given: Id, s: Script)
    requires 'r' in command && w.file == Absent && s in [LOST, LOST_BLINDLY, IMPATIENT]
    ensures RunOnce(w, command, given, s).0 ==
      Send(w.(lookups := w.lookups + [LookupOf(w, s)]),
           if Knows(w, s) then RequestAttestation else Register, s.register.tx)
  {
    hide Send, LookupOf, Knows, Mine;
    assert MineSome(w, 0) == w by {
      assert w.waiting[..0] == [] && w.waiting[0..] == w.waiting;
    }
    hide MineSome, MineAll;
  }

  lemma Snoc(command: string, given: Id, scripts: seq<Script>, s: Script)
    ensures Runs(GENESIS, command, given, scripts + [s])
         == RunOnce(Runs(GENESIS, command, given, scripts), command, given, s).0
  {
    assert (scripts + [s])[..|scripts|] == scripts;
    hide RunOnce;
  }

  /** For every n a run with n failed lookups, none of them made while a register waits, and n + 1 registrations. */
  lemma {:induction false} FailedLookupsReachTheBound(command: string, given: Id, n: nat)
    requires 'r' in command
    ensures var w := Runs(GENESIS, command, given, FailingRuns(n));
      && w.file == Absent && w.waiting == [] && w.chain.registrations == n + 1
      && w.lookups == [Lookup(false, false, 0, true)] + seq(n, (i: nat) => Lookup(true, false, i + 1, true))
  {
    hide RunOnce;
    if n == 0 {
      assert FailingRuns(0) == [] + [LOST];
      Snoc(command, given, [], LOST);
      RegisterOnly(GENESIS, command, given, LOST);
    } else {
      FailedLookupsReachTheBound(command, given, n - 1);
      assert FailingRuns(n) == FailingRuns(n - 1) + [LOST_BLINDLY];
      Snoc(command, given, FailingRuns(n - 1), LOST_BLINDLY);
      hide Runs, FailingRuns;
      RegisterOnly(Runs(GENESIS, command, given, FailingRuns(n - 1)), command, given, LOST_BLINDLY);
    }
  }

  function Registers(n: nat): seq<Transaction> {
    seq(n, _ => Register)
  }

  lemma {:induction false} WaitingRegisters(c: Chain, n: nat)
    ensures MineAll(c, Registers(n)).registrations == c.registrations + n
    decreases n
  {
    if n > 0 {
      assert Registers(n)[1..] == Registers(n - 1);
      WaitingRegisters(Mine(c, Register), n - 1);
    }
  }

  lemma {:induction false} ImpatientRunsWait(command: string, given: Id, n: nat)
    requires 'r' in command
    ensures Runs(GENESIS, command, given, Repeated(IMPATIENT, n)) ==
      World(Absent, GENESIS.chain, Registers(n), seq(n, (i: nat) => Lookup(false, i > 0, i, true)))
  {
    hide RunOnce;
    if n > 0 {
      ImpatientRunsWait(command, given, n - 1);
      assert Repeated(IMPATIENT, n) == Repeated(IMPATIENT, n - 1) + [IMPATIENT];
      Snoc(command, given, Repeated(IMPATIENT, n - 1), IMPATIENT);
      hide Runs;
      var w := Runs(GENESIS, command, given, Repeated(IMPATIENT, n - 1));
      RegisterOnly(w, command, given, IMPATIENT);
      WaitingRegisters(w.chain, n - 1);
      assert n > 1 ==> Registers(n - 1)[0] in Registers(n - 1);
      assert Registers(n - 1) + [Register] == Registers(n);
      hide MineAll;
    }
  }

  /**
   For every n a run in which no lookup fails, n are made while a register waits, and n + 1 registrations are mined:
   each run gives up on its register, and the next one looks before it is mined.
   */
  lemma EarlyLookupsReachTheBound(command: string, given: Id, n: nat)
    requires 'r' in command
    ensures var w := Runs(GENESIS, command, given, ImpatientRuns(n));
      && w.file == Absent && w.waiting == [] && w.chain.registrations == n + 1
      && w.lookups == seq(n + 1, (i: nat) => Lookup(false, i > 0, i, true))
  {
    hide RunOnce, Runs;
    ImpatientRunsWait(command, given, n);
    var w := Runs(GENESIS, command, given, Repeated(IMPATIENT, n));
    Snoc(command, given, Repeated(IMPATIENT, n), LOST);
    RegisterOnly(w, command, given, LOST);
    WaitingRegisters(w.chain, n);
    assert n > 0 ==> Registers(n)[0] in Registers(n);
    hide MineAll;
  }
}
