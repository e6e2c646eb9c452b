/** Users do not affect each other: a two-run property of the enclave. */
module Tenants {
  import opened Common
  import opened Encoding
  import opened PolicyGuard
  import opened Codec
  import opened Handlers
  import opened HandlerRuns
  import Fdc
  import W = Wallet

  /** The user a request acts for, in lower case; none if it names no user or is the delivery of a seed. */
  function UserKey(env: Env, req: Request): Option<string> {
    match req
    case UpdateKey(_) => None
    case SetPolicy(msg) =>
      var o := DecodeJson(env, msg);
      if o.Err? then None
      else
        var p := ParsePolicy(o.value);
        if p.Err? then None else Some(ToLower(p.value.owner))
    case _ =>
      var d := DecodeUser(env, req.msg);
      if d.Err? then None else Some(ToLower(d.value.1))
  }

  predicate Mine(env: Env, u: string, e: Event) {
    UserKey(env, e.req) == Some(u)
  }

  /** The run with every other user's requests deleted, seed deliveries kept. */
  function OnlyUser(env: Env, u: string, trace: seq<Event>): seq<Event> {
    if trace == [] then []
    else
      var last := trace[|trace| - 1];
      OnlyUser(env, u, trace[..|trace| - 1]) + (if last.req.UpdateKey? || Mine(env, u, last) then [last] else [])
  }

  /** What the user was answered. */
  function Answers(env: Env, u: string, trace: seq<Event>, outcomes: seq<Outcome>): seq<Outcome>
    requires |trace| == |outcomes|
  {
    if trace == [] then []
    else
      var n := |trace| - 1;
      Answers(env, u, trace[..n], outcomes[..n]) + (if Mine(env, u, trace[n]) then [outcomes[n]] else [])
  }

  /** What is stored for the user, and the seed, are the same. */
  ghost predicate SameView(u: string, s: EnclaveState, t: EnclaveState) {
    && s.seed == t.seed
    && (u in s.users <==> u in t.users)
    && (u in s.users ==> s.users[u] == t.users[u])
  }

  lemma CreateWalletSeesOnlyUser(env: Env, u: string, s: EnclaveState, t: EnclaveState, msg: string)
    requires SameView(u, s, t) && UserKey(env, CreateWallet(msg)) == Some(u)
    ensures ApplyCreateWallet(env, s, msg).1 == ApplyCreateWallet(env, t, msg).1
    ensures SameView(u, ApplyCreateWallet(env, s, msg).0, ApplyCreateWallet(env, t, msg).0)
  {
    hide W.Derive, DecodeUser;
  }

  lemma SetPolicySeesOnlyUser(env: Env, u: string, s: EnclaveState, t: EnclaveState, msg: string)
    requires SameView(u, s, t) && UserKey(env, SetPolicy(msg)) == Some(u)
    ensures ApplySetPolicy(env, s, msg).1 == ApplySetPolicy(env, t, msg).1
    ensures SameView(u, ApplySetPolicy(env, s, msg).0, ApplySetPolicy(env, t, msg).0)
  {
    hide ParsePolicy, DecodeJson;
  }

  lemma ConfirmDepositSeesOnlyUser(env: Env, u: string, s: EnclaveState, t: EnclaveState, msg: string)
    requires SameView(u, s, t) && UserKey(env, ConfirmDeposit(msg)) == Some(u)
    ensures ApplyConfirmDeposit(env, s, msg).1 == ApplyConfirmDeposit(env, t, msg).1
    ensures SameView(u, ApplyConfirmDeposit(env, s, msg).0, ApplyConfirmDeposit(env, t, msg).0)
  {
    hide DecodeUser, Fdc.ParseConfirmDeposit, Fdc.ValidatePaymentProof;
  }

  lemma VaultActionSeesOnlyUser(env: Env, u: string, s: EnclaveState, t: EnclaveState, kind: IntentKind, msg: string)
    requires SameView(u, s, t) && UserKey(env, VaultAction(kind, msg)) == Some(u)
    ensures BeginVaultAction(env, s, kind, msg).1 == BeginVaultAction(env, t, kind, msg).1
    ensures SameView(u, BeginVaultAction(env, s, kind, msg).0, BeginVaultAction(env, t, kind, msg).0)
    ensures var p := BeginVaultAction(env, s, kind, msg).1; p.Await? ==> p.k.Signing? && ToLower(p.k.user) == u
  {
    hide DecodeUser, ParseVaultIntent, EvaluateIntent, ActionDigest, W.Derive;
  }

  lemma ResumeSeesOnlyUser(env: Env, u: string, s: EnclaveState, t: EnclaveState, k: Continuation,
                           awaited: Option<bytes>)
    requires SameView(u, s, t) && (k.Signing? ==> ToLower(k.user) == u)
    ensures Resume(env, s, k, awaited).1 == Resume(env, t, k, awaited).1
    ensures SameView(u, Resume(env, s, k, awaited).0, Resume(env, t, k, awaited).0)
  {
    hide DestinationOf, ToDecimal;
  }

  /** The user's own requests, and seed deliveries, see nothing but the seed and the user's own entry. */
  lemma OwnStep(env: Env, u: string, s: EnclaveState, t: EnclaveState, e: Event)
    requires SameView(u, s, t) && (Mine(env, u, e) || e.req.UpdateKey?)
    ensures Apply(env, s, e.req, e.awaited).1 == Apply(env, t, e.req, e.awaited).1
    ensures SameView(u, Apply(env, s, e.req, e.awaited).0, Apply(env, t, e.req, e.awaited).0)
  {
    hide BeginVaultAction, ApplyConfirmDeposit, ApplyCreateWallet, ApplySetPolicy, Resume;
    match e.req {
      case CreateWallet(msg) => CreateWalletSeesOnlyUser(env, u, s, t, msg);
      case SetPolicy(msg) => SetPolicySeesOnlyUser(env, u, s, t, msg);
      case ConfirmDeposit(msg) => ConfirmDepositSeesOnlyUser(env, u, s, t, msg);
      case VaultAction(kind, msg) => VaultActionSeesOnlyUser(env, u, s, t, kind, msg);
      case UpdateKey(_) =>
    }
    var (s', p) := Begin(env, s, e.req);
    var (t', _) := Begin(env, t, e.req);
    if p.Await? {
      ResumeSeesOnlyUser(env, u, s', t', p.k, e.awaited);
    }
  }

  lemma OthersVaultAction(env: Env, u: string, s: EnclaveState, kind: IntentKind, msg: string)
    requires UserKey(env, VaultAction(kind, msg)) != Some(u)
    ensures SameView(u, s, BeginVaultAction(env, s, kind, msg).0)
    ensures var p := BeginVaultAction(env, s, kind, msg).1; p.Await? ==> p.k.Signing? && ToLower(p.k.user) != u
  {
    hide DecodeUser, ParseVaultIntent, EvaluateIntent, ActionDigest, W.Derive;
  }

  lemma OthersResume(env: Env, u: string, s: EnclaveState, k: Continuation, awaited: Option<bytes>)
    requires k.Signing? && ToLower(k.user) != u
    ensures SameView(u, s, Resume(env, s, k, awaited).0)
  {
    hide DestinationOf, ToDecimal;
  }

  lemma OthersConfirmDeposit(env: Env, u: string, s: EnclaveState, msg: string)
    requires UserKey(env, ConfirmDeposit(msg)) != Some(u)
    ensures SameView(u, s, ApplyConfirmDeposit(env, s, msg).0)
  {
    hide DecodeUser, Fdc.ParseConfirmDeposit, Fdc.ValidatePaymentProof;
  }

  lemma OthersSetPolicy(env: Env, u: string, s: EnclaveState, msg: string)
    requires UserKey(env, SetPolicy(msg)) != Some(u)
    ensures SameView(u, s, ApplySetPolicy(env, s, msg).0)
  {
    hide ParsePolicy, DecodeJson;
  }

  lemma OthersCreateWallet(env: Env, u: string, s: EnclaveState, msg: string)
    requires UserKey(env, CreateWallet(msg)) != Some(u)
    ensures SameView(u, s, ApplyCreateWallet(env, s, msg).0)
  {
    hide W.Derive, DecodeUser;
  }

  /** Other users' requests change nothing of that. */
  lemma OthersStep(env: Env, u: string, s: EnclaveState, e: Event)
    requires !Mine(env, u, e) && !e.req.UpdateKey?
    ensures SameView(u, s, Apply(env, s, e.req, e.awaited).0)
  {
    hide BeginVaultAction, ApplyConfirmDeposit, ApplyCreateWallet, ApplySetPolicy, Resume;
    match e.req {
      case CreateWallet(msg) => OthersCreateWallet(env, u, s, msg);
      case SetPolicy(msg) => OthersSetPolicy(env, u, s, msg);
      case ConfirmDeposit(msg) => OthersConfirmDeposit(env, u, s, msg);
      case VaultAction(kind, msg) =>
        OthersVaultAction(env, u, s, kind, msg);
        var (s', p) := Begin(env, s, e.req);
        if p.Await? {
          OthersResume(env, u, s', p.k, e.awaited);
        }
      case UpdateKey(_) =>
    }
  }

  /**
   Deleting every other user's requests from a run leaves what one user is answered, and what is stored for that
   user, exactly as it was.
   */
  lemma {:induction false} TenantNonInterference(env: Env, u: string, trace: seq<Event>)
    ensures var (s, outcomes), (t, alone) := Run(env, INITIAL, trace), Run(env, INITIAL, OnlyUser(env, u, trace));
      && SameView(u, s, t)
      && Answers(env, u, trace, outcomes) == Answers(env, u, OnlyUser(env, u, trace), alone)
  {
    hide Apply, Mine;
    if trace != [] {
      var n := |trace| - 1;
      var e := trace[n];
      TenantNonInterference(env, u, trace[..n]);
      var (s, outcomes) := Run(env, INITIAL, trace[..n]);
      var mine := OnlyUser(env, u, trace[..n]);
      var (t, alone) := Run(env, INITIAL, mine);
      var (s', all) := Run(env, INITIAL, trace);
      assert all[..n] == outcomes;
      if e.req.UpdateKey? || Mine(env, u, e) {
        OwnStep(env, u, s, t, e);
        assert OnlyUser(env, u, trace) == mine + [e];
        assert (mine + [e])[..|mine|] == mine;
        var (t', replies) := Run(env, INITIAL, mine + [e]);
        assert replies[..|mine|] == alone;
      } else {
        OthersStep(env, u, s, e);
        assert OnlyUser(env, u, trace) == mine;
      }
    }
  }
}
