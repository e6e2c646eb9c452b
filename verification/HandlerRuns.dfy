/** Whole runs of the enclave, one request after the other, and what they keep of the stored policies. */
module HandlerRuns {
  import opened Common
  import opened Encoding
  import opened PolicyGuard
  import opened Codec
  import opened Handlers
  import Fdc
  import W = Wallet

  /** A request and what its await produced. */
  datatype Event = Event(req: Request, awaited: Option<bytes>)

  const INITIAL := EnclaveState(None, map[])

  function Run(env: Env, s: EnclaveState, trace: seq<Event>): (r: (EnclaveState, seq<Outcome>))
    ensures |r.1| == |trace|
  {
    if trace == [] then (s, [])
    else
      var (before, outcomes) := Run(env, s, trace[..|trace| - 1]);
      var last := trace[|trace| - 1];
      var (after, outcome) := Apply(env, before, last.req, last.awaited);
      (after, outcomes + [outcome])
  }

  /** The state in which event k is handled. */
  function Before(env: Env, trace: seq<Event>, k: nat): EnclaveState
    requires k <= |trace|
  {
    Run(env, INITIAL, trace[..k]).0
  }

  lemma {:induction false} OutcomeAt(env: Env, trace: seq<Event>, k: nat)
    requires k < |trace|
    ensures Run(env, INITIAL, trace).1[k] == Apply(env, Before(env, trace, k), trace[k].req, trace[k].awaited).1
  {
    hide Apply;
    if k < |trace| - 1 {
      OutcomeAt(env, trace[..|trace| - 1], k);
      assert trace[..|trace| - 1][..k] == trace[..k];
    }
  }

  // ---- the policy in force --------------------------------------------------------

  /** Every stored policy is well formed and filed under its own owner. */
  ghost predicate ValidState(s: EnclaveState) {
    forall k :: k in s.users && s.users[k].policy.Some? ==>
      WellFormedPolicy(s.users[k].policy.value) && ToLower(s.users[k].policy.value.owner) == k
  }

  function PolicyOf(users: Users, u: string): Option<Policy> {
    if u in users then users[u].policy else None
  }

  /** Same policies, though users may have been added or counters moved. */
  ghost predicate KeepsPolicies(before: Users, after: Users) {
    forall u :: PolicyOf(after, u) == PolicyOf(before, u)
  }

  lemma CreateWalletKeepsPolicies(env: Env, s: EnclaveState, msg: string)
    ensures KeepsPolicies(s.users, ApplyCreateWallet(env, s, msg).0.users)
  {
    hide W.Derive, DecodeUser;
  }

  lemma ConfirmDepositKeepsPolicies(env: Env, s: EnclaveState, msg: string)
    ensures KeepsPolicies(s.users, ApplyConfirmDeposit(env, s, msg).0.users)
  {
    hide DecodeUser, Fdc.ParseConfirmDeposit, Fdc.ValidatePaymentProof;
  }

  lemma VaultActionKeepsPolicies(env: Env, s: EnclaveState, kind: IntentKind, msg: string)
    ensures KeepsPolicies(s.users, BeginVaultAction(env, s, kind, msg).0.users)
  {
    hide DecodeUser, ParseVaultIntent, EvaluateIntent, ActionDigest, W.Derive;
  }

  lemma ResumeKeepsPolicies(env: Env, s: EnclaveState, k: Continuation, awaited: Option<bytes>)
    ensures KeepsPolicies(s.users, Resume(env, s, k, awaited).0.users)
  {
    hide DestinationOf, ToDecimal;
  }

  lemma SetPolicyKeepsValid(env: Env, s: EnclaveState, msg: string)
    requires ValidState(s)
    ensures ValidState(ApplySetPolicy(env, s, msg).0)
  {
    var o := DecodeJson(env, msg);
    if o.Ok? && ParsePolicy(o.value).Ok? {
      PolicyRoundTrip(ParsePolicy(o.value).value);
    }
    hide ParsePolicy, WellFormedPolicy, DecodeJson;
  }

  lemma ApplyKeepsPolicies(env: Env, s: EnclaveState, e: Event)
    requires !e.req.SetPolicy?
    ensures KeepsPolicies(s.users, Apply(env, s, e.req, e.awaited).0.users)
  {
    hide BeginVaultAction, ApplyConfirmDeposit, ApplyCreateWallet, Resume;
    match e.req {
      case CreateWallet(msg) => CreateWalletKeepsPolicies(env, s, msg);
      case ConfirmDeposit(msg) => ConfirmDepositKeepsPolicies(env, s, msg);
      case VaultAction(kind, msg) => VaultActionKeepsPolicies(env, s, kind, msg);
      case _ =>
    }
    var (s', p) := Begin(env, s, e.req);
    if p.Await? {
      ResumeKeepsPolicies(env, s', p.k, e.awaited);
    }
  }

  lemma SamePoliciesAreValid(s: EnclaveState, t: EnclaveState)
    requires ValidState(s) && KeepsPolicies(s.users, t.users)
    ensures ValidState(t)
  {
    hide WellFormedPolicy, ToLower;
    forall k | k in t.users && t.users[k].policy.Some?
      ensures WellFormedPolicy(t.users[k].policy.value) && ToLower(t.users[k].policy.value.owner) == k
    {
      assert PolicyOf(t.users, k) == PolicyOf(s.users, k);
    }
  }

  lemma ApplyKeepsValid(env: Env, s: EnclaveState, e: Event)
    requires ValidState(s)
    ensures ValidState(Apply(env, s, e.req, e.awaited).0)
  {
    if e.req.SetPolicy? {
      hide ApplySetPolicy;
      SetPolicyKeepsValid(env, s, e.req.msg);
    } else {
      hide Apply, KeepsPolicies, ValidState;
      ApplyKeepsPolicies(env, s, e);
      SamePoliciesAreValid(s, Apply(env, s, e.req, e.awaited).0);
    }
  }

  lemma {:induction false} RunKeepsValid(env: Env, trace: seq<Event>)
    ensures ValidState(Run(env, INITIAL, trace).0)
  {
    hide Apply;
    if trace != [] {
      RunKeepsValid(env, trace[..|trace| - 1]);
      ApplyKeepsValid(env, Run(env, INITIAL, trace[..|trace| - 1]).0, trace[|trace| - 1]);
    }
  }

  // ---- the seed in force, read off the trace --------------------------------------------------

  /** The seed that an event delivers: an UPDATE_KEY message with bytes in it, decrypted to 32 bytes. */
  function Delivers(e: Event): Option<Word32> {
    if e.req.UpdateKey? && DecodeHex(e.req.msg).Ok? && DecodeHex(e.req.msg).value != []
       && e.awaited.Some? && |e.awaited.value| == 32 then Some(e.awaited.value)
    else None
  }

  function SeedInForce(trace: seq<Event>): Option<Word32> {
    if trace == [] then None
    else
      var last := Delivers(trace[|trace| - 1]);
      if last.Some? then last else SeedInForce(trace[..|trace| - 1])
  }

  /** UPDATE_KEY loads exactly the 32 bytes that were decrypted, and in every other case changes nothing. */
  lemma UpdateKeyAnswersExactly(env: Env, s: EnclaveState, msg: string, awaited: Option<bytes>)
    ensures var raw, answer := DecodeHex(msg), Apply(env, s, UpdateKey(msg), awaited);
      && (raw.Err? ==> answer == (s, Failed(InvalidHex(raw.error))))
      && (raw == Ok([]) ==> answer == (s, Failed(EmptyMessage)))
      && (raw.Ok? && raw.value != [] ==>
            answer == if awaited.Some? && |awaited.value| == 32 then (s.(seed := awaited), Success(KeyLoaded))
                      else (s, Failed(SeedUpdateFailed)))
  {
  }

  lemma OnlyUpdateKeySeeds(env: Env, s: EnclaveState, e: Event)
    requires !e.req.UpdateKey?
    ensures Apply(env, s, e.req, e.awaited).0.seed == s.seed
  {
    hide ParseVaultIntent, ParsePolicy, EvaluateIntent, ActionDigest, W.Derive, DecodeUser, DecodeJson;
    hide DestinationOf, ToDecimal, Fdc.ParseConfirmDeposit, Fdc.ValidatePaymentProof;
  }

  /** In every run the seed is the one that the last delivering event of the trace carried. */
  lemma {:induction false} SeedIsLastDelivered(env: Env, trace: seq<Event>)
    ensures Run(env, INITIAL, trace).0.seed == SeedInForce(trace)
  {
    hide Apply;
    if trace != [] {
      var e := trace[|trace| - 1];
      SeedIsLastDelivered(env, trace[..|trace| - 1]);
      var s := Run(env, INITIAL, trace[..|trace| - 1]).0;
      if e.req.UpdateKey? {
        UpdateKeyAnswersExactly(env, s, e.req.msg, e.awaited);
      } else {
        OnlyUpdateKeySeeds(env, s, e);
      }
    }
  }

  // ---- the policy in force, read off the trace ------------------------------------------------------

  /** The JSON value that a message carries. */
  function Payload(env: Env, msg: string): Option<Json> {
    if DecodeHex(msg).Ok? then env.parseJson(DecodeHex(msg).value) else None
  }

  /** A SET_POLICY event whose payload is an object that describes this policy. */
  predicate Sets(env: Env, e: Event, p: Policy) {
    && e.req.SetPolicy? && Payload(env, e.req.msg).Some? && Payload(env, e.req.msg).value.JObject?
    && WellFormedPolicy(p) && DescribesPolicy(Payload(env, e.req.msg).value.fields, p)
  }

  /** The policy that the last SET_POLICY event for the user set. */
  ghost predicate PolicyInForce(env: Env, u: string, trace: seq<Event>, p: Policy) {
    exists k :: 0 <= k < |trace| && Sets(env, trace[k], p) && ToLower(p.owner) == u && NotSetSince(env, u, trace, k)
  }

  ghost predicate NotSetSince(env: Env, u: string, trace: seq<Event>, k: nat) {
    forall j, q :: k < j < |trace| && Sets(env, trace[j], q) ==> ToLower(q.owner) != u
  }

  lemma PayloadIsDecoded(env: Env, msg: string)
    ensures DecodeHex(msg).Err? ==> DecodeJson(env, msg) == Err(InvalidHex(DecodeHex(msg).error))
    ensures DecodeHex(msg).Ok? && Payload(env, msg) == None ==> DecodeJson(env, msg) == Err(InvalidJson)
    ensures Payload(env, msg).Some? ==> DecodeJson(env, msg) == Ok(Payload(env, msg).value)
  {
  }

  /** SET_POLICY stores exactly a policy that its payload describes, and in every other case changes nothing. */
  lemma SetPolicyAnswersExactly(env: Env, s: EnclaveState, msg: string, awaited: Option<bytes>)
    ensures var (t, o) := Apply(env, s, SetPolicy(msg), awaited);
      && (forall p :: Sets(env, Event(SetPolicy(msg), awaited), p) ==>
            && o == Success(PolicySet(p.owner, p.riskLevel, |p.allowedVenues|))
            && var key := ToLower(p.owner);
            t == s.(users := s.users[key := (if key in s.users then s.users[key] else FRESH_USER).(policy := Some(p))]))
      && ((forall p :: !Sets(env, Event(SetPolicy(msg), awaited), p)) ==>
            && t == s && o.Failed?
            && (o.error.InvalidPolicy? <==> Payload(env, msg).Some?)
            && (o.error == InvalidJson <==> DecodeHex(msg).Ok? && Payload(env, msg) == None)
            && (o.error.InvalidHex? <==> DecodeHex(msg).Err?))
  {
    hide ParsePolicy, DecodeJson, WellFormedPolicy, DescribesPolicy, Payload, DecodeHex;
    PayloadIsDecoded(env, msg);
    if Payload(env, msg).Some? {
      var raw := Payload(env, msg).value;
      forall p
        ensures ParsePolicy(raw) == Ok(p) <==> Sets(env, Event(SetPolicy(msg), awaited), p)
      {
        ParsesDescribedPolicy(raw, p);
      }
      if ParsePolicy(raw).Ok? {
        assert Sets(env, Event(SetPolicy(msg), awaited), ParsePolicy(raw).value);
      }
    }
  }

  /** What one event does to the policy of a user. */
  lemma PolicyStep(env: Env, s: EnclaveState, e: Event, u: string)
    ensures var t := Apply(env, s, e.req, e.awaited).0;
      && (forall p :: Sets(env, e, p) && ToLower(p.owner) == u ==> PolicyOf(t.users, u) == Some(p))
      && ((forall p :: Sets(env, e, p) ==> ToLower(p.owner) != u) ==> PolicyOf(t.users, u) == PolicyOf(s.users, u))
  {
    if e.req.SetPolicy? {
      hide Apply, Payload, WellFormedPolicy, DescribesPolicy, ToLower;
      assert e == Event(SetPolicy(e.req.msg), e.awaited);
      SetPolicyAnswersExactly(env, s, e.req.msg, e.awaited);
    } else {
      hide Apply;
      ApplyKeepsPolicies(env, s, e);
    }
  }

  /** An event sets at most one policy. */
  lemma SetsOne(env: Env, e: Event, p: Policy, q: Policy)
    requires Sets(env, e, p) && Sets(env, e, q)
    ensures p == q
  {
    ParsesDescribedPolicy(Payload(env, e.req.msg).value, p);
    ParsesDescribedPolicy(Payload(env, e.req.msg).value, q);
    hide ParsePolicy, WellFormedPolicy, DescribesPolicy, Payload;
  }

  lemma InForceStep(env: Env, u: string, trace: seq<Event>, p: Policy)
    requires trace != []
    ensures var n := |trace| - 1;
      PolicyInForce(env, u, trace, p) <==>
        (Sets(env, trace[n], p) && ToLower(p.owner) == u)
        || (PolicyInForce(env, u, trace[..n], p) && forall q :: Sets(env, trace[n], q) ==> ToLower(q.owner) != u)
  {
    hide Sets, ToLower;
    var n := |trace| - 1;
    if k: nat :| k < |trace| && Sets(env, trace[k], p) && ToLower(p.owner) == u && NotSetSince(env, u, trace, k) {
      if k < n {
        assert trace[..n][k] == trace[k];
        assert NotSetSince(env, u, trace[..n], k);
      }
    }
    if Sets(env, trace[n], p) && ToLower(p.owner) == u {
      assert NotSetSince(env, u, trace, n);
    }
    if PolicyInForce(env, u, trace[..n], p) && forall q :: Sets(env, trace[n], q) ==> ToLower(q.owner) != u {
      var k: nat :| k < n && Sets(env, trace[..n][k], p) && NotSetSince(env, u, trace[..n], k);
      forall j, q | k < j < |trace| && Sets(env, trace[j], q)
        ensures ToLower(q.owner) != u
      {
        assert j < n ==> trace[j] == trace[..n][j];
      }
      assert NotSetSince(env, u, trace, k) && trace[k] == trace[..n][k];
    }
  }

  /** In every run the policy stored for a user is the one that the user's last SET_POLICY event described. */
  lemma {:induction false} PolicyIsLastSet(env: Env, u: string, trace: seq<Event>, p: Policy)
    ensures PolicyOf(Run(env, INITIAL, trace).0.users, u) == Some(p) <==> PolicyInForce(env, u, trace, p)
  {
    hide Apply, Sets, ToLower;
    if trace != [] {
      var n := |trace| - 1;
      PolicyIsLastSet(env, u, trace[..n], p);
      InForceStep(env, u, trace, p);
      PolicyStep(env, Run(env, INITIAL, trace[..n]).0, trace[n], u);
      hide PolicyInForce;
      if q :| Sets(env, trace[n], q) && ToLower(q.owner) == u {
        if Sets(env, trace[n], p) {
          SetsOne(env, trace[n], p, q);
        }
      }
    }
  }
}
