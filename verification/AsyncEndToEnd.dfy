/**
 Enclave and vault with the enclave behind its asynchronous server: requests, microtasks, resolved awaits and
 transactions interleave freely, and a signature is known once its answer has settled.
 */
module AsyncEndToEnd {
  import opened Common
  import opened Handlers
  import opened EndToEnd
  import opened Payouts
  import AE = AsyncEnclave
  import R = HandlerRuns
  import Solvency
  import V = Vault
  import VR = VaultRuns

  datatype ServedEvent = OnServer(e: AE.AsyncEvent) | OnChain(call: V.Call)

  function ServerEvents(events: seq<ServedEvent>): seq<AE.AsyncEvent> {
    if events == [] then []
    else
      var last := events[|events| - 1];
      ServerEvents(events[..|events| - 1]) + (if last.OnServer? then [last.e] else [])
  }

  function ChainCalls(events: seq<ServedEvent>): seq<V.Call> {
    if events == [] then []
    else
      var last := events[|events| - 1];
      ChainCalls(events[..|events| - 1]) + (if last.OnChain? then [last.call] else [])
  }

  predicate IsServed(p: AE.EnclaveProgress) {
    p.Return? && p.result.Answered? && IsSigned(p.result.outcome)
  }

  function SignatureIn(p: AE.EnclaveProgress): (Address, Word32)
    requires IsServed(p)
  {
    (p.result.outcome.reply.signer, p.result.outcome.reply.digest)
  }

  function ServedSignatures(answers: seq<AE.EnclaveProgress>): VR.Signatures {
    set p | p in answers && IsServed(p) :: SignatureIn(p)
  }

  /** The signatures in settled answers. */
  ghost function GivenOut(env: Env, events: seq<AE.AsyncEvent>): VR.Signatures {
    ServedSignatures(AE.AnswersOf(AE.ServerRun(env, events).settled))
  }

  /** Only the enclave signs with these wallets, and a signature is not known before its answer settles. */
  ghost predicate OnlyServedSignatures(env: Env, wallets: iset<Address>, events: seq<ServedEvent>) {
    events != [] ==>
      var before, last := events[..|events| - 1], events[|events| - 1];
      && OnlyServedSignatures(env, wallets, before)
      && (last.OnChain? ==> VR.Honest(env.crypto, wallets, GivenOut(env, ServerEvents(before)), last.call))
  }

  // ---- the same run without overlap ------------------------------------------------------------------

  /** The requests answered so far, in order, with what their awaits produced. */
  ghost function Settled(env: Env, events: seq<AE.AsyncEvent>): seq<R.Event> {
    var js := AE.ServerRun(env, events);
    var m := |js.settled|;
    if m <= |AE.Calls(events)| && m <= |js.inputs| then AE.HandledBefore(env, events, m) else []
  }

  /** The run of EndToEnd in which each request is handled at once, at the moment when its answer settles. */
  ghost function Atomic(env: Env, events: seq<ServedEvent>): seq<SystemEvent> {
    if events == [] then []
    else
      var before, last := events[..|events| - 1], events[|events| - 1];
      Atomic(env, before) +
      match last
      case OnChain(call) => [OnVault(call)]
      case OnServer(_) =>
        var earlier, now := Settled(env, ServerEvents(before)), Settled(env, ServerEvents(events));
        if |now| > |earlier| then [OnEnclave(now[|now| - 1])] else []
  }

  lemma {:induction false} HandledGrows(calls: seq<AE.Call>, awaited: seq<Option<bytes>>, m: nat)
    requires m <= |calls| == |awaited| <= m + 1
    ensures var (before, now) := (AE.Handled(calls[..m], awaited[..m]), AE.Handled(calls, awaited));
      now == before || (|now| == |before| + 1 && now[..|before|] == before)
  {
    if m == |calls| {
      assert calls[..m] == calls && awaited[..m] == awaited;
    }
  }

  lemma CallsGrow(events: seq<AE.AsyncEvent>, m: nat)
    requires events != [] && m <= |AE.Calls(events[..|events| - 1])|
    ensures m <= |AE.Calls(events)| && AE.Calls(events)[..m] == AE.Calls(events[..|events| - 1])[..m]
  {
  }

  /** One event of the server answers at most one more request. */
  lemma SettledGrows(env: Env, events: seq<AE.AsyncEvent>)
    requires events != []
    ensures var (before, now) := (Settled(env, events[..|events| - 1]), Settled(env, events));
      now == before || (|now| == |before| + 1 && now[..|before|] == before)
  {
    hide AE.ServerRun, AE.OneAtATime, AE.Handled, AE.Calls;
    var earlier := events[..|events| - 1];
    AE.ServerRunsEnclaveSequentially(env, earlier);
    AE.ServerRunsEnclaveSequentially(env, events);
    AE.AnswersStay(env, events);
    var m, n := |AE.ServerRun(env, earlier).settled|, |AE.ServerRun(env, events).settled|;
    CallsGrow(events, m);
    var inputs := AE.ServerRun(env, events).inputs;
    var calls, awaited := AE.Calls(events)[..n], AE.FirstInputs(inputs[..n]);
    assert calls[..m] == AE.Calls(earlier)[..m];
    assert inputs[..n][..m] == inputs[..m];
    assert awaited[..m] == AE.FirstInputs(inputs[..m]);
    HandledGrows(calls, awaited, m);
  }

  lemma {:induction false} AtomicHistory(env: Env, events: seq<ServedEvent>)
    ensures EnclaveTrace(Atomic(env, events)) == Settled(env, ServerEvents(events))
    ensures Transactions(Atomic(env, events)) == ChainCalls(events)
  {
    hide Settled;
    if events == [] {
      NothingSettled(env);
    } else {
      var before, last := events[..|events| - 1], events[|events| - 1];
      var earlier, all := Atomic(env, before), Atomic(env, events);
      AtomicHistory(env, before);
      if last.OnServer? {
        assert ServerEvents(events)[..|ServerEvents(before)|] == ServerEvents(before);
        SettledGrows(env, ServerEvents(events));
      } else {
        assert ServerEvents(events) == ServerEvents(before);
      }
      if |all| > |earlier| {
        assert all[..|all| - 1] == earlier;
        var last := all[|all| - 1];
        assert EnclaveTrace(all) == EnclaveTrace(earlier) + (if last.OnEnclave? then [last.e] else []);
      } else {
        assert all == earlier;
      }
    }
  }

  lemma NothingSettled(env: Env)
    ensures Settled(env, []) == []
  {
    var js := AE.ServerRun(env, []);
    assert js.settled == [];
  }

  // ---- and the same signatures -----------------------------------------------------------------------------

  function NewlyServed(p: AE.EnclaveProgress): VR.Signatures {
    if IsServed(p) then {SignatureIn(p)} else {}
  }

  function NewlySigned(o: Outcome): VR.Signatures {
    if IsSigned(o) then {(o.reply.signer, o.reply.digest)} else {}
  }

  lemma OneMoreServed(answers: seq<AE.EnclaveProgress>, p: AE.EnclaveProgress)
    ensures ServedSignatures(answers + [p]) == ServedSignatures(answers) + NewlyServed(p)
  {
    hide IsServed;
  }

  lemma OneMoreSigned(outcomes: seq<Outcome>, o: Outcome)
    ensures SignaturesOf(outcomes + [o]) == SignaturesOf(outcomes) + NewlySigned(o)
  {
  }

  lemma ServesWhatIsSigned(env: Env, s: EnclaveState, call: AE.Call, awaited: Option<bytes>)
    ensures NewlyServed(AE.RunCall(env, s, call, awaited).1)
         == if call.Handle? then NewlySigned(Apply(env, s, call.req, awaited).1) else {}
  {
    hide Apply, AE.ReportOf;
  }

  /** One request more at the end of a run without overlap. */
  lemma RunSnoc(env: Env, trace: seq<R.Event>, e: R.Event)
    ensures R.Run(env, R.INITIAL, trace + [e]).1
         == R.Run(env, R.INITIAL, trace).1 + [Apply(env, R.Run(env, R.INITIAL, trace).0, e.req, e.awaited).1]
  {
    hide Apply;
    assert (trace + [e])[..|trace|] == trace;
  }

  lemma {:induction false} AnswersAreOutcomes(env: Env, calls: seq<AE.Call>, awaited: seq<Option<bytes>>)
    requires |calls| == |awaited|
    ensures ServedSignatures(AE.OneAtATime(env, calls, awaited).1)
         == SignaturesOf(R.Run(env, R.INITIAL, AE.Handled(calls, awaited)).1)
  {
    hide AE.RunCall, R.Run, ServedSignatures, SignaturesOf, NewlyServed, NewlySigned, Apply;
    if calls == [] {
      NoSignatures(env);
    } else {
      var n := |calls| - 1;
      AnswersAreOutcomes(env, calls[..n], awaited[..n]);
      AE.StateIsOfRequests(env, calls[..n], awaited[..n]);
      var (s, answers) := AE.OneAtATime(env, calls[..n], awaited[..n]);
      OneMoreServed(answers, AE.RunCall(env, s, calls[n], awaited[n]).1);
      ServesWhatIsSigned(env, s, calls[n], awaited[n]);
      var before := AE.Handled(calls[..n], awaited[..n]);
      if calls[n].Handle? {
        RunSnoc(env, before, R.Event(calls[n].req, awaited[n]));
        OneMoreSigned(R.Run(env, R.INITIAL, before).1, Apply(env, s, calls[n].req, awaited[n]).1);
      } else {
        assert AE.Handled(calls, awaited) == before;
      }
    }
  }

  lemma NoSignatures(env: Env)
    ensures ServedSignatures([]) == {} && SignaturesOf(R.Run(env, R.INITIAL, []).1) == {}
  {
  }

  lemma GivenOutIsSigned(env: Env, events: seq<ServedEvent>)
    ensures GivenOut(env, ServerEvents(events)) == SignaturesOf(Outcomes(env, Atomic(env, events)))
  {
    hide AE.ServerRun, AE.OneAtATime, R.Run, ServedSignatures, SignaturesOf, Atomic;
    AtomicHistory(env, events);
    var trace := ServerEvents(events);
    AE.ServerRunsEnclaveSequentially(env, trace);
    var js := AE.ServerRun(env, trace);
    var m := |js.settled|;
    var calls, awaited := AE.Calls(trace)[..m], AE.FirstInputs(js.inputs[..m]);
    AnswersAreOutcomes(env, calls, awaited);
    assert AE.AnswersOf(js.settled) == AE.OneAtATime(env, calls, awaited).1;
  }

  /**
   Every interleaved run is, for the vault and for who knows which signature, the run in which requests are handled at
   once: same transactions, same signatures given out, and the hypothesis on signatures carries over.
   */
  lemma {:induction false} ServedRunIsSystemRun(env: Env, wallets: iset<Address>, events: seq<ServedEvent>)
    requires OnlyServedSignatures(env, wallets, events)
    ensures var atomic := Atomic(env, events);
      && Transactions(atomic) == ChainCalls(events) && EnclaveTrace(atomic) == Settled(env, ServerEvents(events))
      && SignaturesOf(Outcomes(env, atomic)) == GivenOut(env, ServerEvents(events))
      && OnlyEnclaveSigns(env, wallets, atomic)
  {
    hide Settled, GivenOut, Outcomes, VR.Honest;
    AtomicHistory(env, events);
    GivenOutIsSigned(env, events);
    if events != [] {
      var before := events[..|events| - 1];
      ServedRunIsSystemRun(env, wallets, before);
      var earlier, all := Atomic(env, before), Atomic(env, events);
      if |all| > |earlier| {
        assert all[..|all| - 1] == earlier;
      } else {
        assert all == earlier;
      }
    }
  }

  /** What the vault executed under an enclave wallet was approved by an answer that had settled by then. */
  lemma ServedSoundness(env: Env, wallets: iset<Address>, events: seq<ServedEvent>, x: V.ActionExecuted)
    requires OnlyServedSignatures(env, wallets, events) && NoCollision(env, Atomic(env, events))
    requires x in V.RunAll(env.crypto, V.EMPTY, ChainCalls(events)).log && x.signer in wallets
    ensures exists k: nat :: ApprovedAt(env, Settled(env, ServerEvents(events)), k, x)
  {
    hide Settled, GivenOut, Atomic, V.RunAll, R.Run, ApprovedAt, NoCollision, OnlyEnclaveSigns, OnlyServedSignatures;
    ServedRunIsSystemRun(env, wallets, events);
    ExecutionIsApproved(env, wallets, Atomic(env, events), x);
  }

  /** The vault's balance is backed by the answers that have settled, if only enclave wallets are ever registered. */
  lemma ServedBalanceIsBacked(env: Env, wallets: iset<Address>, vault: Address, events: seq<ServedEvent>,
                              asset: Address)
    requires OnlyServedSignatures(env, wallets, events) && NoCollision(env, Atomic(env, events))
    requires Solvency.AllRegisterOnly(wallets, ChainCalls(events)) && VR.AllConserving(vault, ChainCalls(events))
    ensures var st := V.RunAll(env.crypto, V.EMPTY, ChainCalls(events));
      var outcomes := R.Run(env, R.INITIAL, Settled(env, ServerEvents(events))).1;
      V.At(st.held, asset) >= V.At(st.paidIn, asset) - Sum(SignedWhere(SignedOf(asset), outcomes))
  {
    hide Settled, GivenOut, Atomic, V.RunAll, R.Run, NoCollision, OnlyEnclaveSigns, OnlyServedSignatures;
    hide Solvency.AllRegisterOnly, VR.AllConserving, V.At, Sum, SignedWhere;
    ServedRunIsSystemRun(env, wallets, events);
    Solvency.BalanceIsBacked(env, wallets, vault, Atomic(env, events), asset);
  }
}
