/** What the enclave's signatures cover, over whole runs. */
module Signing {
  import opened Common
  import opened Encoding
  import opened PolicyGuard
  import opened Codec
  import opened Handlers
  import opened HandlerRuns
  import opened Tenants
  import opened Bookkeeping
  import A = Abi
  import Fdc
  import W = Wallet

  /** The action a Signed answer prints, read back as the Go driver and the contract read it. */
  predicate Readable(r: Reply) {
    r.Signed? && IsAddress(r.user) && IsAddress(r.asset) && IsAddress(r.destination) && IsDecimal(r.amount)
  }

  function PrintedAction(r: Reply): A.Action
    requires Readable(r)
  {
    A.Action(ContractKind(r.kind), AddressBytes(r.asset), DecimalValue(r.amount), AddressBytes(r.destination))
  }

  /** The answer keeps to the policy that is in force for its user, and is signed with that user's derived key. */
  ghost predicate Sound(env: Env, s: EnclaveState, r: Reply) {
    && Readable(r)
    && s.seed.Some?
    && var a := PrintedAction(r);
       var p := Lookup(s.users, r.user).policy;
       var key := W.Derive(env.crypto, s.seed.value, r.user);
    && p.Some? && WellFormedPolicy(p.value) && ToLower(p.value.owner) == ToLower(r.user)
    && a.asset == AddressBytes(p.value.asset)
    && 0 < a.amount <= p.value.maxTxAmount && a.Fits()
    && PermittedDestination(p.value, r.kind, a.dest)
    && r.digest == env.crypto.keccak(A.AbiEncode(a))
    && key.Ok? && env.crypto.keyOk(key.value)
    && r.signer == env.crypto.addressOf(key.value)
    && r.signature == env.crypto.sign(key.value, r.digest)
  }

  /** What a vault action that stops to sign has established. */
  lemma BeforeSigning(env: Env, s: EnclaveState, kind: IntentKind, msg: string)
    requires ValidState(s)
    requires BeginVaultAction(env, s, kind, msg).1.Await?
    ensures var k := BeginVaultAction(env, s, kind, msg).1.k;
      && k.Signing? && IsAddress(k.user) && WellFormedIntent(k.intent) && s.seed.Some?
      && W.Derive(env.crypto, s.seed.value, k.user) == Ok(k.key)
      && Some(k.digest) == ActionDigest(env.crypto, k.intent)
      && var p := Lookup(s.users, k.user).policy;
         p.Some? && EvaluateIntent(p.value, k.intent).allow
         && WellFormedPolicy(p.value) && ToLower(p.value.owner) == ToLower(k.user)
  {
    var decoded := DecodeUser(env, msg);
    if ParseVaultIntent(kind, decoded.value.0).Ok? {
      ParsedIntentIsWellFormed(kind, decoded.value.0);
    }
    hide ParseVaultIntent, EvaluateIntent, ActionDigest, W.Derive, DecodeUser, WellFormedIntent, WellFormedPolicy;
  }

  lemma DerivedKeyIsValid(env: Env, seed: Word32, user: string)
    requires W.Derive(env.crypto, seed, user).Ok?
    ensures env.crypto.keyOk(W.Derive(env.crypto, seed, user).value)
  {
  }

  lemma SignedAnswerIsSound(env: Env, s: EnclaveState, k: Continuation)
    requires k.Signing? && IsAddress(k.user) && WellFormedIntent(k.intent) && s.seed.Some?
    requires W.Derive(env.crypto, s.seed.value, k.user) == Ok(k.key)
    requires Some(k.digest) == ActionDigest(env.crypto, k.intent)
    requires Lookup(s.users, k.user).policy.Some?
    requires var p := Lookup(s.users, k.user).policy.value;
      EvaluateIntent(p, k.intent).allow && WellFormedPolicy(p) && ToLower(p.owner) == ToLower(k.user)
    ensures Sound(env, s, Signed(k.user, env.crypto.addressOf(k.key), k.intent.kind, k.intent.asset,
                                 ToDecimal(k.intent.amount), DestinationOf(k.intent), k.digest,
                                 env.crypto.sign(k.key, k.digest)))
  {
    var p := Lookup(s.users, k.user).policy.value;
    ActionDigestIsVaultDigest(env.crypto, k.intent);
    ApprovedActionIsPermitted(p, k.intent);
    DerivedKeyIsValid(env, s.seed.value, k.user);
    DecimalRoundTrip(k.intent.amount);
    hide EvaluateIntent, ActionDigest, W.Derive, A.AbiEncode, DecimalValue, ToDecimal, PermittedDestination;
    hide WellFormedPolicy, ContractKind, AddressBytes, ToLower;
  }

  /** A request is answered with a signature only when it keeps to the policy in force. */
  lemma SignedRequestIsSound(env: Env, s: EnclaveState, e: Event)
    requires ValidState(s)
    requires var o := Apply(env, s, e.req, e.awaited).1; o.Success? && o.reply.Signed?
    ensures Sound(env, s, Apply(env, s, e.req, e.awaited).1.reply)
    ensures e.req.VaultAction? && Mine(env, ToLower(Apply(env, s, e.req, e.awaited).1.reply.user), e)
  {
    hide Sound, W.Derive, ActionDigest, EvaluateIntent, WellFormedPolicy, ParseVaultIntent, ParsePolicy;
    hide DestinationOf, ToDecimal, Fdc.ParseConfirmDeposit, Fdc.ValidatePaymentProof;
    assert e.req.VaultAction?;
    var (s', p) := BeginVaultAction(env, s, e.req.kind, e.req.msg);
    BeforeSigning(env, s, e.req.kind, e.req.msg);
    SignedAnswerIsSound(env, s, p.k);
    VaultActionCounted(env, s, e.req.kind, e.req.msg, SignedActions);
    hide BeginVaultAction;
  }

  /**
   Every signature of every run keeps to the policy in force when it was made, and is made with the key derived from the
   seed in force: the policy is the one that the user's last SET_POLICY event before it described, and the seed the one
   that the last seed delivery before it carried.
   */
  lemma EverySignatureIsSound(env: Env, trace: seq<Event>, k: nat)
    requires k < |trace|
    requires var o := Run(env, INITIAL, trace).1[k]; o.Success? && o.reply.Signed?
    ensures Sound(env, Before(env, trace, k), Run(env, INITIAL, trace).1[k].reply)
    ensures var r, s := Run(env, INITIAL, trace).1[k].reply, Before(env, trace, k);
      && Readable(r) && SeedInForce(trace[..k]) == s.seed && s.seed.Some?
      && r.signer == env.crypto.addressOf(env.crypto.keccak(SeedInForce(trace[..k]).value + AddressBytes(r.user)))
      && Lookup(s.users, r.user).policy.Some?
      && PolicyInForce(env, ToLower(r.user), trace[..k], Lookup(s.users, r.user).policy.value)
  {
    hide Apply, Sound, PolicyInForce, SeedInForce, AddressBytes, IsAddress, Run;
    OutcomeAt(env, trace, k);
    RunKeepsValid(env, trace[..k]);
    SignedRequestIsSound(env, Before(env, trace, k), trace[k]);
    SeedIsLastDelivered(env, trace[..k]);
    var s, r := Before(env, trace, k), Run(env, INITIAL, trace).1[k].reply;
    SoundParts(env, s, r);
    PolicyIsLastSet(env, ToLower(r.user), trace[..k], Lookup(s.users, r.user).policy.value);
  }

  lemma SoundParts(env: Env, s: EnclaveState, r: Reply)
    requires Sound(env, s, r)
    ensures Readable(r) && s.seed.Some? && Lookup(s.users, r.user).policy.Some?
    ensures r.signer == env.crypto.addressOf(env.crypto.keccak(s.seed.value + AddressBytes(r.user)))
  {
    W.DeriveForAddress(env.crypto, s.seed.value, r.user);
    hide A.AbiEncode, WellFormedPolicy, W.Derive, PermittedDestination, AddressBytes, IsAddress;
  }

  // ---- how much is signed -----------------------------------------------------------

  function SignedAmount(o: Outcome): nat {
    if o.Success? && o.reply.Signed? && IsDecimal(o.reply.amount) then DecimalValue(o.reply.amount) else 0
  }

  function SignedTotal(outcomes: seq<Outcome>): nat {
    if outcomes == [] then 0
    else SignedTotal(outcomes[..|outcomes| - 1]) + SignedAmount(outcomes[|outcomes| - 1])
  }

  /** No policy that is in force for the user during the run allows more than cap. */
  ghost predicate CappedBy(env: Env, u: string, trace: seq<Event>, cap: nat) {
    forall k :: 0 <= k < |trace| ==>
      var p := Entry(Before(env, trace, k).users, u).policy; p.Some? ==> p.value.maxTxAmount <= cap
  }

  lemma CappedPrefix(env: Env, u: string, trace: seq<Event>, cap: nat)
    requires trace != [] && CappedBy(env, u, trace, cap)
    ensures CappedBy(env, u, trace[..|trace| - 1], cap)
  {
    var n := |trace| - 1;
    forall k | 0 <= k < n
      ensures Before(env, trace[..n], k) == Before(env, trace, k)
    {
      assert trace[..n][..k] == trace[..k];
    }
  }

  lemma StepWithinCap(env: Env, u: string, s: EnclaveState, e: Event, cap: nat)
    requires ValidState(s) && Mine(env, u, e)
    requires var p := Entry(s.users, u).policy; p.Some? ==> p.value.maxTxAmount <= cap
    ensures var o := Apply(env, s, e.req, e.awaited).1; AtMostTimes(SignedAmount(o), Gain(o, SignedActions), cap)
  {
    hide Apply, Mine, DecimalValue, A.AbiEncode, WellFormedPolicy, PermittedDestination, W.Derive;
    var o := Apply(env, s, e.req, e.awaited).1;
    if o.Success? && o.reply.Signed? {
      SignedRequestIsSound(env, s, e);
      MineIsUnique(env, u, ToLower(o.reply.user), e);
    }
  }

  lemma MineIsUnique(env: Env, u: string, v: string, e: Event)
    requires Mine(env, u, e) && Mine(env, v, e)
    ensures u == v
  {
    hide UserKey;
  }

  predicate AtMostTimes(total: nat, n: nat, cap: nat) {
    total <= n * cap
  }

  lemma AddUp(total: nat, n: nat, amount: nat, gain: nat, cap: nat)
    requires AtMostTimes(total, n, cap) && AtMostTimes(amount, gain, cap)
    ensures AtMostTimes(total + amount, n + gain, cap)
  {
    assert (n + gain) * cap == n * cap + gain * cap;
  }

  lemma StepAddsUp(env: Env, u: string, s: EnclaveState, e: Event, total: nat, cap: nat)
    requires ValidState(s) && AtMostTimes(total, Entry(s.users, u).actionsSigned, cap)
    requires var p := Entry(s.users, u).policy; p.Some? ==> p.value.maxTxAmount <= cap
    ensures var (t, o) := Apply(env, s, e.req, e.awaited);
      AtMostTimes(total + (if Mine(env, u, e) then SignedAmount(o) else 0), Entry(t.users, u).actionsSigned, cap)
  {
    hide Apply, Mine, SignedAmount, Gain, ValidState, AtMostTimes, Entry;
    UserEntryMoves(env, u, s, e, SignedActions);
    if Mine(env, u, e) {
      var o := Apply(env, s, e.req, e.awaited).1;
      StepWithinCap(env, u, s, e, cap);
      AddUp(total, Entry(s.users, u).actionsSigned, SignedAmount(o), Gain(o, SignedActions), cap);
    }
  }

  /** The total signed for a user is at most the number of the user's signed actions times the cap. */
  lemma {:induction false} SignedTotalIsBounded(env: Env, u: string, trace: seq<Event>, cap: nat)
    requires CappedBy(env, u, trace, cap)
    ensures var (s, outcomes) := Run(env, INITIAL, trace);
      AtMostTimes(SignedTotal(Answers(env, u, trace, outcomes)), Entry(s.users, u).actionsSigned, cap)
  {
    hide Apply, Mine, SignedAmount, ValidState, Entry;
    if trace != [] {
      hide AtMostTimes;
      var n := |trace| - 1;
      CappedPrefix(env, u, trace, cap);
      SignedTotalIsBounded(env, u, trace[..n], cap);
      var (s, outcomes) := Run(env, INITIAL, trace[..n]);
      var (t, all) := Run(env, INITIAL, trace);
      assert all[..n] == outcomes;
      assert s == Before(env, trace, n);
      RunKeepsValid(env, trace[..n]);
      var mine := Answers(env, u, trace[..n], outcomes);
      StepAddsUp(env, u, s, trace[n], SignedTotal(mine), cap);
      if Mine(env, u, trace[n]) {
        assert Answers(env, u, trace, all) == mine + [all[n]];
        assert (mine + [all[n]])[..|mine|] == mine;
      } else {
        assert Answers(env, u, trace, all) == mine;
      }
    }
  }
}
