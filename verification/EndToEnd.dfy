/**
 The link between the enclave and the vault: what is paid for an account under an enclave wallet was approved and
 signed, and what is signed is payable.
 */
module EndToEnd {
  import opened Common
  import opened Crypto
  import opened Handlers
  import opened PolicyGuard
  import R = HandlerRuns
  import S = Signing
  import A = Abi
  import V = Vault
  import VR = VaultRuns

  /** A run of the whole system interleaves requests to the enclave with transactions on the vault's chain. */
  datatype SystemEvent = OnEnclave(e: R.Event) | OnVault(call: V.Call)

  function EnclaveTrace(events: seq<SystemEvent>): seq<R.Event> {
    if events == [] then []
    else
      var last := events[|events| - 1];
      EnclaveTrace(events[..|events| - 1]) + (if last.OnEnclave? then [last.e] else [])
  }

  function Transactions(events: seq<SystemEvent>): seq<V.Call> {
    if events == [] then []
    else
      var last := events[|events| - 1];
      Transactions(events[..|events| - 1]) + (if last.OnVault? then [last.call] else [])
  }

  function Outcomes(env: Env, events: seq<SystemEvent>): seq<Outcome> {
    R.Run(env, R.INITIAL, EnclaveTrace(events)).1
  }

  function VaultAfter(env: Env, events: seq<SystemEvent>): V.VaultState {
    V.RunAll(env.crypto, V.EMPTY, Transactions(events))
  }

  predicate IsSigned(o: Outcome) {
    o.Success? && o.reply.Signed?
  }

  /** The signatures the enclave has given out. */
  function SignaturesOf(outcomes: seq<Outcome>): VR.Signatures {
    set o | o in outcomes && IsSigned(o) :: (o.reply.signer, o.reply.digest)
  }

  /**
   Only the enclave signs with the keys of these wallets: whenever the vault is called with a signature that recovers
   to one of them, the enclave had given that wallet's signature on that digest.
   */
  ghost predicate OnlyEnclaveSigns(env: Env, wallets: iset<Address>, events: seq<SystemEvent>) {
    events != [] ==>
      var before, last := events[..|events| - 1], events[|events| - 1];
      && OnlyEnclaveSigns(env, wallets, before)
      && (last.OnVault? ==> VR.Honest(env.crypto, wallets, SignaturesOf(Outcomes(env, before)), last.call))
  }

  /** The hash does not collide between an executed action and a signed one. */
  ghost predicate NoCollision(env: Env, events: seq<SystemEvent>) {
    forall x, o :: x in VaultAfter(env, events).log && o in Outcomes(env, events) && IsSigned(o) && S.Readable(o.reply)
      && S.PrintedAction(o.reply).Fits()
      && env.crypto.keccak(A.AbiEncode(x.action)) == env.crypto.keccak(A.AbiEncode(S.PrintedAction(o.reply)))
      ==> A.AbiEncode(x.action) == A.AbiEncode(S.PrintedAction(o.reply))
  }

  // ---- every execution under an enclave wallet was signed ----------------------------------

  lemma {:induction false} RunAllSnoc(c: CryptoSuite, st: V.VaultState, calls: seq<V.Call>, call: V.Call)
    ensures V.RunAll(c, st, calls + [call]) == V.Run(c, V.RunAll(c, st, calls), call).0
    decreases |calls|
  {
    hide V.Run;
    if calls != [] {
      assert (calls + [call])[1..] == calls[1..] + [call];
      RunAllSnoc(c, V.Run(c, st, calls[0]).0, calls[1..], call);
    } else {
      assert V.RunAll(c, st, [call]) == V.RunAll(c, V.Run(c, st, call).0, [][..]);
    }
  }

  lemma NothingRun(c: CryptoSuite)
    ensures V.RunAll(c, V.EMPTY, []) == V.EMPTY
  {
  }

  lemma SignaturesGrow(outcomes: seq<Outcome>, o: Outcome)
    ensures SignaturesOf(outcomes) <= SignaturesOf(outcomes + [o])
  {
  }

  lemma {:induction false} ExecutionsAreBacked(env: Env, wallets: iset<Address>, events: seq<SystemEvent>)
    requires OnlyEnclaveSigns(env, wallets, events)
    ensures VR.Backed(env.crypto, wallets, SignaturesOf(Outcomes(env, events)), VaultAfter(env, events).log)
  {
    hide V.RunAll, Apply, V.ActionDigest;
    if events == [] {
      NothingRun(env.crypto);
    } else {
      var before, last := events[..|events| - 1], events[|events| - 1];
      ExecutionsAreBacked(env, wallets, before);
      if last.OnVault? {
        hide VR.Backed;
        assert EnclaveTrace(events) == EnclaveTrace(before);
        RunAllSnoc(env.crypto, V.EMPTY, Transactions(before), last.call);
        VR.RunKeepsBacked(env.crypto, wallets, SignaturesOf(Outcomes(env, before)), VaultAfter(env, before), last.call);
      } else {
        var trace := EnclaveTrace(before);
        assert Transactions(events) == Transactions(before);
        assert (trace + [last.e])[..|trace|] == trace;
        var all := Outcomes(env, events);
        assert all == Outcomes(env, before) + [all[|trace|]];
        SignaturesGrow(Outcomes(env, before), all[|trace|]);
      }
    }
  }

  /** Enclave event k gave out a signature that keeps to the policy then in force and covers exactly this execution. */
  ghost predicate ApprovedAt(env: Env, trace: seq<R.Event>, k: nat, x: V.ActionExecuted) {
    && k < |trace|
    && var o := R.Run(env, R.INITIAL, trace).1[k];
    && IsSigned(o) && S.Sound(env, R.Before(env, trace, k), o.reply)
    && S.PrintedAction(o.reply) == x.action && o.reply.signer == x.signer
  }

  /** The contract logs a kind exactly for answers that printed the operation of that kind. */
  predicate SameKind(kind: IntentKind, code: byte) {
    && (code == V.KIND_ALLOCATE <==> kind == Allocate)
    && (code == V.KIND_REBALANCE <==> kind == Rebalance)
    && (code == V.KIND_WITHDRAW <==> kind == Withdraw)
  }

  lemma ApprovedKind(env: Env, trace: seq<R.Event>, k: nat, x: V.ActionExecuted)
    requires ApprovedAt(env, trace, k, x)
    ensures k < |trace| && IsSigned(R.Run(env, R.INITIAL, trace).1[k])
    ensures SameKind(R.Run(env, R.INITIAL, trace).1[k].reply.kind, x.action.kind)
  {
    hide R.Run, A.AbiEncode;
  }

  /** Whatever the vault executed under an enclave wallet was signed at some moment of the run. */
  lemma ExecutionIsApproved(env: Env, wallets: iset<Address>, events: seq<SystemEvent>, x: V.ActionExecuted)
    requires OnlyEnclaveSigns(env, wallets, events) && NoCollision(env, events)
    requires x in VaultAfter(env, events).log && x.signer in wallets
    ensures exists k :: ApprovedAt(env, EnclaveTrace(events), k, x)
  {
    hide V.RunAll, R.Run, S.Sound;
    ExecutionsAreBacked(env, wallets, events);
    var trace, outcomes := EnclaveTrace(events), Outcomes(env, events);
    var o :| o in outcomes && IsSigned(o)
      && (o.reply.signer, o.reply.digest) == (x.signer, V.ActionDigest(env.crypto, x.action));
    var k :| 0 <= k < |outcomes| && outcomes[k] == o;
    S.EverySignatureIsSound(env, trace, k);
    SoundDigest(env, R.Before(env, trace, k), o.reply);
    A.AbiEncodeInjective(x.action, S.PrintedAction(o.reply));
    assert ApprovedAt(env, trace, k, x);
    hide A.AbiEncode;
  }

  // ---- and signed earlier ----------------------------------------------------------------------

  /** Both histories only grow, and what the enclave's keys signed is known at every earlier moment. */
  lemma {:induction false} HistoryGrows(env: Env, wallets: iset<Address>, events: seq<SystemEvent>, n: nat)
    requires n <= |events|
    ensures EnclaveTrace(events[..n]) <= EnclaveTrace(events)
    ensures VaultAfter(env, events[..n]).log <= VaultAfter(env, events).log
    ensures OnlyEnclaveSigns(env, wallets, events) ==> OnlyEnclaveSigns(env, wallets, events[..n])
    decreases |events|
  {
    hide V.Run, V.RunAll, VR.Honest, Outcomes;
    if n < |events| {
      var before, last := events[..|events| - 1], events[|events| - 1];
      assert before[..n] == events[..n];
      HistoryGrows(env, wallets, before, n);
      if last.OnVault? {
        RunAllSnoc(env.crypto, V.EMPTY, Transactions(before), last.call);
        VR.RunKeepsLog(env.crypto, VaultAfter(env, before), last.call);
      } else {
        assert Transactions(events) == Transactions(before);
      }
    } else {
      assert events[..n] == events;
    }
  }

  /** An answer once given stays what it was, and so does the state it was given in. */
  lemma PrefixAnswers(env: Env, before: seq<R.Event>, after: seq<R.Event>, k: nat)
    requires before <= after && k < |before|
    ensures R.Before(env, before, k) == R.Before(env, after, k)
    ensures R.Run(env, R.INITIAL, before).1[k] == R.Run(env, R.INITIAL, after).1[k]
  {
    hide R.Run;
    R.OutcomeAt(env, before, k);
    R.OutcomeAt(env, after, k);
    assert before[..k] == after[..k];
  }

  lemma NoCollisionBefore(env: Env, wallets: iset<Address>, events: seq<SystemEvent>, n: nat)
    requires n <= |events| && NoCollision(env, events)
    ensures NoCollision(env, events[..n])
  {
    hide V.RunAll, R.Run, A.AbiEncode, S.Readable, S.PrintedAction;
    HistoryGrows(env, wallets, events, n);
    forall o | o in Outcomes(env, events[..n])
      ensures o in Outcomes(env, events)
    {
      var k :| 0 <= k < |Outcomes(env, events[..n])| && Outcomes(env, events[..n])[k] == o;
      PrefixAnswers(env, EnclaveTrace(events[..n]), EnclaveTrace(events), k);
    }
  }

  /**
   Whatever the vault had executed after the first n events for an account whose managed wallet is one of the
   enclave's: its kind, asset, amount and destination are those of an answer the enclave gave among these n events,
   signed with that wallet as its user's derived wallet, for which the policy then in force allowed the asset, the
   amount and the destination.
   */
  lemma EndToEndSoundness(env: Env, wallets: iset<Address>, events: seq<SystemEvent>, n: nat, x: V.ActionExecuted)
    requires OnlyEnclaveSigns(env, wallets, events) && NoCollision(env, events) && n <= |events|
    requires x in VaultAfter(env, events[..n]).log && x.signer in wallets
    ensures exists k: nat ::
      && k < |EnclaveTrace(events[..n])| && ApprovedAt(env, EnclaveTrace(events), k, x)
      && SameKind(R.Run(env, R.INITIAL, EnclaveTrace(events)).1[k].reply.kind, x.action.kind)
  {
    hide V.RunAll, R.Run, S.Sound, OnlyEnclaveSigns, NoCollision;
    HistoryGrows(env, wallets, events, n);
    NoCollisionBefore(env, wallets, events, n);
    ExecutionIsApproved(env, wallets, events[..n], x);
    var k: nat :| ApprovedAt(env, EnclaveTrace(events[..n]), k, x);
    PrefixAnswers(env, EnclaveTrace(events[..n]), EnclaveTrace(events), k);
    assert ApprovedAt(env, EnclaveTrace(events), k, x);
    ApprovedKind(env, EnclaveTrace(events), k, x);
  }

  lemma SoundDigest(env: Env, s: EnclaveState, r: Reply)
    requires S.Sound(env, s, r)
    ensures S.Readable(r) && S.PrintedAction(r).Fits()
    ensures r.digest == env.crypto.keccak(A.AbiEncode(S.PrintedAction(r)))
  {
    hide A.AbiEncode;
  }
}
