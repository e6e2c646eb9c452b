/**
 Model of RegisterNode in extension/tools/pkg/fccutils/registration.go: registration in steps, with a state file to
 resume from. One run of the tool is given a script that says which transactions are mined, whether the tool learns of
 it, which saves fail and where the process dies. The state file, the chain and the transactions that wait to be mined
 survive; the rest does not.
 */
module Registration {
  import opened Common

  /** Instruction ids are issued from 1 on; 0 is the zero hash. */
  type Id = nat

  datatype RegistrationState = RegistrationState(completedSteps: string, teeAttestInstructionId: Id, instructionId: Id)

  datatype StateFile = Absent | Unparsable | Saved(state: RegistrationState)

  /** A request for an availability check: the attestation it names, the last one issued by then, and its own id. */
  datatype AvailabilityCheck = AvailabilityCheck(attestation: Id, lastIssued: Option<Id>, id: Id)

  /** A proof that was fetched: the check it is for, and the last check requested by then. */
  datatype ProofFetch = ProofFetch(check: Id, lastRequested: Option<Id>)

  datatype Chain = Chain(
    nextId: Id,
    registrations: nat,
    attestations: seq<Id>,
    checks: seq<AvailabilityCheck>,
    proofs: seq<ProofFetch>,
    productions: nat)

  /** What the tool sends, in the order of its nonces. */
  datatype Transaction = Register | RequestAttestation | RequestCheck(attestation: Id) | ToProduction

  /**
   A lookup of the machine: whether it failed, whether a register was waiting to be mined, how many had been sent, and
   whether the tool went on to send one.
   */
  datatype Lookup = Lookup(failed: bool, pending: bool, sentBefore: nat, registers: bool)

  /** waiting: sent and not mined yet; they are mined in order, and before anything that is sent later. */
  datatype World = World(file: StateFile, chain: Chain, waiting: seq<Transaction>, lookups: seq<Lookup>)

  const GENESIS := World(Absent, Chain(1, 0, [], [], [], 0), [], [])

  /**
   MinedButLost: mined, and the tool gets an error or dies before it hears of it. Pending: the tool gives up waiting,
   and the transaction is mined some time later.
   */
  datatype Tx = NotMined | Pending | MinedButLost | Mined

  datatype Save = Written | NotWritten | Garbled

  datatype StepScript = StepScript(diesBefore: bool, tx: Tx, save: Save, diesAfter: bool)

  /** minedBefore: how many of the waiting transactions are mined by the time the run looks at the chain. */
  datatype Script = Script(
    minedBefore: nat,
    startFails: bool,
    lookupFails: bool,
    register: StepScript,
    attest: StepScript,
    preflightFails: bool,
    check: StepScript,
    proofFails: bool,
    production: Tx,
    removeFails: bool)

  // ---- the chain ---------------------------------------------------------------------

  function LastAttestation(c: Chain): Option<Id> {
    if c.attestations == [] then None else Some(c.attestations[|c.attestations| - 1])
  }

  function LastCheck(c: Chain): Option<Id> {
    if c.checks == [] then None else Some(c.checks[|c.checks| - 1].id)
  }

  function AttestationRequested(c: Chain): Chain {
    c.(attestations := c.attestations + [c.nextId], nextId := c.nextId + 1)
  }

  /** register() also requests the machine's first attestation. */
  function Registered(c: Chain): Chain {
    AttestationRequested(c).(registrations := c.registrations + 1)
  }

  function CheckRequested(c: Chain, attestation: Id): Chain {
    c.(checks := c.checks + [AvailabilityCheck(attestation, LastAttestation(c), c.nextId)], nextId := c.nextId + 1)
  }

  function Mine(c: Chain, t: Transaction): Chain {
    match t
    case Register => Registered(c)
    case RequestAttestation => AttestationRequested(c)
    case RequestCheck(attestation) => CheckRequested(c, attestation)
    case ToProduction => c.(productions := c.productions + 1)
  }

  function MineAll(c: Chain, ts: seq<Transaction>): Chain
    decreases |ts|
  {
    if ts == [] then c else MineAll(Mine(c, ts[0]), ts[1..])
  }

  /** The chain once everything that waits is mined. */
  function Future(w: World): Chain {
    MineAll(w.chain, w.waiting)
  }

  function MineSome(w: World, n: nat): World {
    if n >= |w.waiting| then w.(chain := Future(w), waiting := [])
    else w.(chain := MineAll(w.chain, w.waiting[..n]), waiting := w.waiting[n..])
  }

  /** Sent and mined at once, which mines what was sent before; or left waiting. */
  function Send(w: World, t: Transaction, tx: Tx): World {
    match tx
    case NotMined => w
    case Pending => w.(waiting := w.waiting + [t])
    case _ => w.(chain := Mine(Future(w), t), waiting := [])
  }

  // ---- one run -----------------------------------------------------------------------------

  /** The process: what survives it, its local variables, and whether it is still running. */
  datatype Process = Process(w: World, state: RegistrationState, attestation: Id, check: Id, running: bool)

  function AfterSave(file: StateFile, save: Save, state: RegistrationState): StateFile {
    match save
    case Written => Saved(state)
    case NotWritten => file
    case Garbled => Unparsable
  }

  /** The id that a transaction sent now gets when it is mined. */
  function NextId(w: World): Id {
    Future(w).nextId
  }

  /** A step's transaction, then the save of the new state. */
  function TakeStep(p: Process, s: StepScript, t: Transaction, state: RegistrationState): Process {
    if s.diesBefore then p.(running := false)
    else
      var w := Send(p.w, t, s.tx);
      if s.tx != Mined then p.(w := w, running := false)
      else p.(w := w.(file := AfterSave(w.file, s.save, state)), state := state, running := !s.diesAfter)
  }

  predicate Knows(w: World, s: Script) {
    !s.lookupFails && w.chain.registrations > 0
  }

  /** The lookup that step r makes; it sees what is mined. */
  function LookupOf(w: World, s: Script): Lookup {
    Lookup(s.lookupFails, Register in w.waiting, Future(w).registrations,
           !Knows(w, s) && !s.register.diesBefore && s.register.tx != NotMined)
  }

  function StepR(p: Process, command: string, s: Script): Process {
    if !p.running || 'r' !in command then p
    else if 'r' in p.state.completedSteps then p.(attestation := p.state.teeAttestInstructionId)
    else
      var looked := p.w.(lookups := p.w.lookups + [LookupOf(p.w, s)]);
      TakeStep(p.(w := looked, attestation := NextId(p.w)), s.register,
               if Knows(p.w, s) then RequestAttestation else Register,
               p.state.(completedSteps := p.state.completedSteps + "r", teeAttestInstructionId := NextId(p.w)))
  }

  function StepRR(p: Process, command: string, s: Script): Process {
    if !p.running || 'R' !in command then p
    else if 'R' in p.state.completedSteps then p.(attestation := p.state.teeAttestInstructionId)
    else
      TakeStep(p.(attestation := NextId(p.w)), s.attest, RequestAttestation,
               p.state.(completedSteps := p.state.completedSteps + "R", teeAttestInstructionId := NextId(p.w)))
  }

  function StepA(p: Process, command: string, given: Id, s: Script): Process {
    if !p.running then p
    else if 'a' !in command then p.(check := given)
    else if 'a' in p.state.completedSteps then p.(check := p.state.instructionId)
    else if s.preflightFails then p.(running := false)
    else
      TakeStep(p.(check := NextId(p.w)), s.check, RequestCheck(p.attestation),
               p.state.(completedSteps := p.state.completedSteps + "a", instructionId := NextId(p.w)))
  }

  function StepP(p: Process, command: string, s: Script): Process {
    if !p.running || 'p' !in command then p
    else if s.proofFails then p.(running := false)
    else
      var c := p.w.chain;
      var fetched := p.w.(chain := c.(proofs := c.proofs + [ProofFetch(p.check, LastCheck(c))]));
      p.(w := Send(fetched, ToProduction, s.production), running := s.production == Mined)
  }

  function Load(file: StateFile): Option<RegistrationState> {
    match file
    case Absent => Some(RegistrationState("", 0, 0))
    case Unparsable => None
    case Saved(state) => Some(state)
  }

  /** RegisterNode: the world it leaves, and whether it returned without an error. */
  function RunOnce(w: World, command: string, given: Id, s: Script): (World, bool) {
    var w0 := MineSome(w, s.minedBefore);
    if s.startFails || Load(w.file).None? then (w0, false)
    else
      var p0 := Process(w0, Load(w.file).value, 0, 0, true);
      var p := StepP(StepA(StepRR(StepR(p0, command, s), command, s), command, given, s), command, s);
      if !p.running then (p.w, false)
      else (if s.removeFails then p.w else p.w.(file := Absent), true)
  }

  /** Runs of the same command, one after the other, whatever happened to the earlier ones. */
  function Runs(w: World, command: string, given: Id, scripts: seq<Script>): World {
    if scripts == [] then w
    else RunOnce(Runs(w, command, given, scripts[..|scripts| - 1]), command, given, scripts[|scripts| - 1]).0
  }

  // ---- the tool, on the file and the chain -----------------------------------------------------

  class Tool {
    var file: StateFile
    var chain: Chain
    var waiting: seq<Transaction>
    /** The lookups so far; a record for the proofs only. */
    ghost var lookups: seq<Lookup>

    constructor (w: World)
      ensures Outside() == w
    {
      file, chain, waiting, lookups := w.file, w.chain, w.waiting, w.lookups;
    }

    ghost function Outside(): World
      reads this
    {
      World(file, chain, waiting, lookups)
    }

    method SaveState(state: RegistrationState, save: Save)
      modifies this`file
      ensures file == AfterSave(old(file), save, state)
      ensures save == Written ==> file == Saved(state)
      ensures save == NotWritten ==> file == old(file)
      ensures save == Garbled ==> file == Unparsable
    {
      match save {
        case Written => file := Saved(state);
        case NotWritten =>
        case Garbled => file := Unparsable;
      }
    }

    /** The chain mines the first n waiting transactions, or all if there are fewer. */
    method MineWaiting(n: nat)
      modifies this`chain, this`waiting
      ensures Outside() == MineSome(old(Outside()), n)
    {
      ghost var before := Outside();
      var k := if n < |waiting| then n else |waiting|;
      assert before.waiting[..|before.waiting|] == before.waiting && before.waiting[|before.waiting|..] == [];
      for i := 0 to k
        invariant waiting == before.waiting[i..]
        invariant MineAll(chain, before.waiting[i..k]) == MineAll(before.chain, before.waiting[..k])
      {
        assert before.waiting[i..k][0] == waiting[0] && before.waiting[i..k][1..] == before.waiting[i + 1..k];
        chain := Mine(chain, waiting[0]);
        waiting := waiting[1..];
      }
    }

    /** A chain action: a fresh id, or nothing when it fails, dies or is not mined in time. */
    method SendTransaction(s: StepScript, t: Transaction) returns (id: Option<Id>)
      modifies this`chain, this`waiting
      ensures Outside() == if s.diesBefore then old(Outside()) else Send(old(Outside()), t, s.tx)
      ensures id == if s.diesBefore || s.tx != Mined then None else Some(NextId(old(Outside())))
    {
      id := None;
      if s.diesBefore || s.tx == NotMined {
        return;
      }
      if s.tx == Pending {
        waiting := waiting + [t];
        return;
      }
      MineWaiting(|waiting|);
      if s.tx == Mined {
        id := Some(chain.nextId);
      }
      chain := Mine(chain, t);
    }

    /** The process that the locals of RegisterNode and the surviving parts make up. */
    ghost function At(state: RegistrationState, attestation: Id, check: Id): Process
      reads this
    {
      Process(Outside(), state, attestation, check, true)
    }

    /** This object is where p is, and so are the locals if p is still running. */
    ghost predicate Follows(p: Process, ok: bool, state: RegistrationState, attestation: Id, check: Id)
      reads this
    {
      Outside() == p.w && ok == p.running && (ok ==> p == At(state, attestation, check))
    }

    method PreRegister(command: string, s: Script, state0: RegistrationState)
      returns (ok: bool, state: RegistrationState, attestation: Id)
      modifies this
      ensures Follows(StepR(old(At(state0, 0, 0)), command, s), ok, state, attestation, 0)
    {
      hide Mine, MineAll;
      ok, state, attestation := true, state0, 0;
      if 'r' in command {
        if 'r' in state.completedSteps {
          attestation := state.teeAttestInstructionId;
        } else {
          ghost var lookup := LookupOf(Outside(), s);
          var known := !s.lookupFails && chain.registrations > 0;
          var id := SendTransaction(s.register, if known then RequestAttestation else Register);
          lookups := lookups + [lookup];
          if id.None? {
            ok := false;
            return;
          }
          attestation := id.value;
          state := state.(completedSteps := state.completedSteps + "r", teeAttestInstructionId := attestation);
          SaveState(state, s.register.save);
          ok := !s.register.diesAfter;
        }
      }
    }

    method Attest(command: string, s: Script, state0: RegistrationState, attestation0: Id)
      returns (ok: bool, state: RegistrationState, attestation: Id)
      modifies this
      ensures Follows(StepRR(old(At(state0, attestation0, 0)), command, s), ok, state, attestation, 0)
    {
      hide Mine, MineAll;
      ok, state, attestation := true, state0, attestation0;
      if 'R' in command {
        if 'R' in state.completedSteps {
          attestation := state.teeAttestInstructionId;
        } else {
          var id := SendTransaction(s.attest, RequestAttestation);
          if id.None? {
            ok := false;
            return;
          }
          attestation := id.value;
          state := state.(completedSteps := state.completedSteps + "R", teeAttestInstructionId := attestation);
          SaveState(state, s.attest.save);
          ok := !s.attest.diesAfter;
        }
      }
    }

    method Check(command: string, given: Id, s: Script, state0: RegistrationState, attestation: Id)
      returns (ok: bool, state: RegistrationState, check: Id)
      modifies this
      ensures Follows(StepA(old(At(state0, attestation, 0)), command, given, s), ok, state, attestation, check)
    {
      hide Mine, MineAll;
      ok, state, check := true, state0, given;
      if 'a' in command {
        if 'a' in state.completedSteps {
          check := state.instructionId;
        } else {
          if s.preflightFails {
            ok := false;
            return;
          }
          var id := SendTransaction(s.check, RequestCheck(attestation));
          if id.None? {
            ok := false;
            return;
          }
          check := id.value;
          state := state.(completedSteps := state.completedSteps + "a", instructionId := check);
          SaveState(state, s.check.save);
          ok := !s.check.diesAfter;
        }
      }
    }

    method Produce(command: string, s: Script, state: RegistrationState, attestation: Id, check: Id) returns (ok: bool)
      modifies this`chain, this`waiting
      ensures Follows(StepP(old(At(state, attestation, check)), command, s), ok, state, attestation, check)
    {
      hide Mine, MineAll;
      if 'p' in command {
        if s.proofFails {
          return false;
        }
        chain := chain.(proofs := chain.proofs + [ProofFetch(check, LastCheck(chain))]);
        var _ := SendTransaction(StepScript(false, s.production, NotWritten, false), ToProduction);
        return s.production == Mined;
      }
      return true;
    }

    method RegisterNode(command: string, given: Id, s: Script) returns (ok: bool)
      modifies this
      ensures (Outside(), ok) == RunOnce(old(Outside()), command, given, s)
    {
      hide StepR, StepRR, StepA, StepP, MineAll;
      MineWaiting(s.minedBefore);
      if s.startFails || file.Unparsable? {
        return false;
      }
      var state := if file.Saved? then file.state else RegistrationState("", 0, 0);
      ghost var p1 := StepR(At(state, 0, 0), command, s);
      ghost var p2 := StepRR(p1, command, s);
      ghost var p3 := StepA(p2, command, given, s);
      ghost var p4 := StepP(p3, command, s);
      StoppedStays(p1, command, given, s);
      StoppedStays(p2, command, given, s);
      StoppedStays(p3, command, given, s);

      var attestation: Id;
      ok, state, attestation := PreRegister(command, s, state);
      if !ok {
        return;
      }
      ok, state, attestation := Attest(command, s, state, attestation);
      if !ok {
        return;
      }
      var check: Id;
      ok, state, check := Check(command, given, s, state, attestation);
      if !ok {
        return;
      }
      ok := Produce(command, s, state, attestation, check);
      if ok && !s.removeFails {
        file := Absent;
      }
    }
  }

  lemma StoppedStays(p: Process, command: string, given: Id, s: Script)
    ensures !p.running ==> StepRR(p, command, s) == StepA(p, command, given, s) == StepP(p, command, s) == p
  {
  }
}
