/**
 Addresses that differ only in letter case are the same user: respelling the users in a run's payloads changes
 nothing but how the answers spell them. A two-run property of the enclave, like non-interference.
 */
module LetterCase {
  import opened Common
  import opened Encoding
  import opened PolicyGuard
  import opened Codec
  import opened Handlers
  import opened HandlerRuns
  import Fdc
  import W = Wallet

  predicate SameAddress(a: string, b: string) {
    IsAddress(a) && IsAddress(b) && ToLower(a) == ToLower(b)
  }

  predicate SameUser(u: string, v: string) {
    ToLower(u) == ToLower(v) && (u == v || SameAddress(u, v))
  }

  /** The payloads differ at most in the letter case of the addresses that name the user. */
  predicate Respelled(v: Json, w: Json) {
    v == w ||
    (&& v.JObject? && w.JObject?
     && v.fields.Keys == w.fields.Keys
     && forall k :: k in v.fields ==>
          || v.fields[k] == w.fields[k]
          || (k in ["user", "owner"] && v.fields[k].JString? && w.fields[k].JString?
              && SameAddress(v.fields[k].s, w.fields[k].s)))
  }

  /** The same request, with the user respelled. */
  ghost predicate RespelledEvent(env: Env, e: Event, f: Event) {
    && e.awaited == f.awaited
    && match (e.req, f.req)
       case (UpdateKey(m), UpdateKey(n)) => m == n
       case (CreateWallet(m), CreateWallet(n)) => RespelledPayload(env, m, n)
       case (SetPolicy(m), SetPolicy(n)) => RespelledPayload(env, m, n)
       case (ConfirmDeposit(m), ConfirmDeposit(n)) => RespelledPayload(env, m, n)
       case (VaultAction(k, m), VaultAction(l, n)) => k == l && RespelledPayload(env, m, n)
       case _ => false
  }

  predicate RespelledPayload(env: Env, m: string, n: string) {
    var v, w := DecodeJson(env, m), DecodeJson(env, n);
    v == w || (v.Ok? && w.Ok? && Respelled(v.value, w.value))
  }

  predicate PolicyAlike(p: Policy, q: Policy) {
    q == p.(owner := q.owner) && ToLower(p.owner) == ToLower(q.owner)
  }

  predicate UserAlike(u: UserState, v: UserState) {
    && v == u.(policy := v.policy)
    && (u.policy.Some? <==> v.policy.Some?)
    && (u.policy.Some? ==> PolicyAlike(u.policy.value, v.policy.value))
  }

  /** Equal but for how the stored policies spell their owner. */
  ghost predicate Alike(s: EnclaveState, t: EnclaveState) {
    && s.seed == t.seed
    && s.users.Keys == t.users.Keys
    && forall k :: k in s.users ==> UserAlike(s.users[k], t.users[k])
  }

  function Respell(r: Reply, user: string): Reply {
    match r
    case KeyLoaded => KeyLoaded
    case WalletCreated(_, w) => WalletCreated(user, w)
    case PolicySet(_, l, n) => PolicySet(user, l, n)
    case DepositConfirmed(_, d, t, ref) => DepositConfirmed(user, d, t, ref)
    case Signed(_, w, k, a, n, d, h, sig) => Signed(user, w, k, a, n, d, h, sig)
  }

  /** Equal but for how the answer spells the user. */
  predicate SameAnswer(o: Outcome, p: Outcome) {
    o == p ||
    (o.Success? && p.Success? && !o.reply.KeyLoaded? && !p.reply.KeyLoaded?
     && SameUser(o.reply.user, p.reply.user) && p.reply == Respell(o.reply, p.reply.user))
  }

  // ---- decoding ---------------------------------------------------------------------------

  lemma AddressIsNotEmpty(a: string)
    requires IsAddress(a)
    ensures a != ""
  {
  }

  lemma SameField(v: Json, w: Json, k: string)
    requires Respelled(v, w) && v.JObject? && k !in ["user", "owner"]
    ensures w.JObject? && (k in v.fields <==> k in w.fields) && (k in v.fields ==> v.fields[k] == w.fields[k])
    ensures ReqString(v.fields, k) == ReqString(w.fields, k) && ReqInt(v.fields, k) == ReqInt(w.fields, k)
    ensures ReqAddress(v.fields, k) == ReqAddress(w.fields, k)
    ensures ReqAmount(v.fields, k) == ReqAmount(w.fields, k) && OptAmount(v.fields, k) == OptAmount(w.fields, k)
    ensures OptInt(v.fields, k) == OptInt(w.fields, k) && OptBool(v.fields, k) == OptBool(w.fields, k)
  {
    hide IsAddress, ToLower, DecimalValue, IsDecimal;
  }

  lemma RespelledOwner(v: Json, w: Json)
    requires Respelled(v, w) && v.JObject?
    ensures w.JObject?
    ensures var a, b := ReqAddress(v.fields, "owner"), ReqAddress(w.fields, "owner");
      (a.Err? && a == b) || (a.Ok? && b.Ok? && SameUser(a.value, b.value))
  {
    if "owner" in v.fields && v.fields["owner"].JString? && w.fields["owner"].JString? {
      if IsAddress(v.fields["owner"].s) { AddressIsNotEmpty(v.fields["owner"].s); }
      if IsAddress(w.fields["owner"].s) { AddressIsNotEmpty(w.fields["owner"].s); }
    }
    hide IsAddress, ToLower;
  }

  lemma RespelledPolicy(v: Json, w: Json)
    requires Respelled(v, w)
    ensures var p, q := ParsePolicy(v), ParsePolicy(w);
      (p.Err? && p == q) || (p.Ok? && q.Ok? && PolicyAlike(p.value, q.value) && SameUser(p.value.owner, q.value.owner))
  {
    hide Respelled, ReqAddress, ReqAmount, ReqInt, ReqString, ReadVenues, RiskLevelOf, ToLower, SameAddress;
    if v.JObject? {
      RespelledOwner(v, w);
      SameField(v, w, "riskLevel");
      SameField(v, w, "allowedVenues");
      SameField(v, w, "returnAddress");
      SameField(v, w, "asset");
      SameField(v, w, "maxVenueBps");
      SameField(v, w, "maxTxAmount");
      SameField(v, w, "minHealthFactorBps");
    } else {
      NotAnObjectEither(v, w);
    }
  }

  lemma RespelledIntent(kind: IntentKind, v: Json, w: Json)
    requires Respelled(v, w)
    ensures ParseVaultIntent(kind, v) == ParseVaultIntent(kind, w)
  {
    hide Respelled, ReqAddress, ReqAmount, OptAmount, OptInt, OptBool;
    if v.JObject? {
      SameField(v, w, "asset");
      SameField(v, w, "amount");
      SameField(v, w, "portfolioValue");
      SameField(v, w, "venueBalance");
      SameField(v, w, "projectedHealthFactorBps");
      SameField(v, w, "to");
      SameField(v, w, "userAuthorized");
      SameField(v, w, "venue");
    } else {
      NotAnObjectEither(v, w);
    }
  }

  lemma NotAnObjectEither(v: Json, w: Json)
    requires Respelled(v, w) && !v.JObject?
    ensures v == w
  {
  }

  lemma RespelledDeposit(v: Json, w: Json)
    requires Respelled(v, w)
    ensures Fdc.ParseConfirmDeposit(v) == Fdc.ParseConfirmDeposit(w)
  {
    hide IsAddress, ToLower;
  }

  lemma RespelledUser(env: Env, m: string, n: string)
    requires RespelledPayload(env, m, n)
    ensures var d, e := DecodeUser(env, m), DecodeUser(env, n);
      || (d.Err? && d == e)
      || (d.Ok? && e.Ok? && Respelled(d.value.0, e.value.0) && SameUser(d.value.1, e.value.1))
  {
    hide DecodeJson, ToLower, IsAddress;
  }

  lemma OwnerIsNotJudged(p: Policy, q: Policy, i: Intent)
    requires PolicyAlike(p, q)
    ensures EvaluateIntent(p, i) == EvaluateIntent(q, i)
  {
  }

  // ---- one request --------------------------------------------------------------------------

  lemma LookupAlike(s: EnclaveState, t: EnclaveState, u: string, v: string)
    requires Alike(s, t) && ToLower(u) == ToLower(v)
    ensures UserAlike(Lookup(s.users, u), Lookup(t.users, v))
  {
  }

  lemma UpdateAlike(s: EnclaveState, t: EnclaveState, u: string, v: string, x: UserState, y: UserState)
    requires Alike(s, t) && ToLower(u) == ToLower(v) && UserAlike(x, y)
    ensures Alike(s.(users := Update(s.users, u, x)), t.(users := Update(t.users, v, y)))
  {
    hide UserAlike, ToLower;
  }

  lemma CreateWalletAlike(env: Env, s: EnclaveState, t: EnclaveState, m: string, n: string)
    requires Alike(s, t) && RespelledPayload(env, m, n)
    ensures var (s', o), (t', p) := ApplyCreateWallet(env, s, m), ApplyCreateWallet(env, t, n);
      Alike(s', t') && SameAnswer(o, p)
  {
    assert s.seed == t.seed;
    hide DecodeUser, W.Derive, Lookup, Alike, RespelledPayload, ToLower;
    RespelledUser(env, m, n);
    var d, e := DecodeUser(env, m), DecodeUser(env, n);
    if d.Ok? {
      var u, v := d.value.1, e.value.1;
      LookupAlike(s, t, u, v);
      UpdateAlike(s, t, u, v, Lookup(s.users, u), Lookup(t.users, v));
      if s.seed.Some? {
        W.DeriveIgnoresCase(env.crypto, s.seed.value, u, v);
      }
    }
  }

  lemma SetPolicyAlike(env: Env, s: EnclaveState, t: EnclaveState, m: string, n: string)
    requires Alike(s, t) && RespelledPayload(env, m, n)
    ensures var (s', o), (t', p) := ApplySetPolicy(env, s, m), ApplySetPolicy(env, t, n);
      Alike(s', t') && SameAnswer(o, p)
  {
    hide DecodeJson, ParsePolicy, Lookup, Alike, ToLower;
    var v, w := DecodeJson(env, m), DecodeJson(env, n);
    if v.Ok? {
      assert w.Ok? && Respelled(v.value, w.value);
      RespelledPolicy(v.value, w.value);
      var p, q := ParsePolicy(v.value), ParsePolicy(w.value);
      if p.Ok? {
        var a, b := p.value.owner, q.value.owner;
        LookupAlike(s, t, a, b);
        var x, y := Lookup(s.users, a), Lookup(t.users, b);
        UpdateAlike(s, t, a, b, x.(policy := Some(p.value)), y.(policy := Some(q.value)));
      }
    }
  }

  lemma ConfirmDepositAlike(env: Env, s: EnclaveState, t: EnclaveState, m: string, n: string)
    requires Alike(s, t) && RespelledPayload(env, m, n)
    ensures var (s', o), (t', p) := ApplyConfirmDeposit(env, s, m), ApplyConfirmDeposit(env, t, n);
      Alike(s', t') && SameAnswer(o, p)
  {
    hide DecodeUser, Lookup, Alike, RespelledPayload, ToLower, Fdc.ParseConfirmDeposit, Fdc.ValidatePaymentProof;
    hide ToDecimal, Respelled;
    RespelledUser(env, m, n);
    var d, e := DecodeUser(env, m), DecodeUser(env, n);
    if d.Ok? {
      var u, v := d.value.1, e.value.1;
      LookupAlike(s, t, u, v);
      var x, y := Lookup(s.users, u), Lookup(t.users, v);
      UpdateAlike(s, t, u, v, x, y);
      RespelledDeposit(d.value.0, e.value.0);
      var deposit := Fdc.ParseConfirmDeposit(d.value.0);
      if deposit.Ok? {
        var drops := deposit.value.proof.receivedAmount;
        UpdateAlike(s, t, u, v,
          x.(confirmedDrops := x.confirmedDrops + drops, depositsConfirmed := x.depositsConfirmed + 1),
          y.(confirmedDrops := y.confirmedDrops + drops, depositsConfirmed := y.depositsConfirmed + 1));
      }
    }
  }

  predicate SameProgress(p: Progress, q: Progress) {
    || (p.Done? && q.Done? && SameAnswer(p.outcome, q.outcome))
    || p == q
    || (p.Await? && q.Await? && p.k.Signing? && q.k.Signing? && SameUser(p.k.user, q.k.user)
        && q.k == p.k.(user := q.k.user))
  }

  lemma BeginVaultActionAlike(env: Env, s: EnclaveState, t: EnclaveState, kind: IntentKind, m: string, n: string)
    requires Alike(s, t) && RespelledPayload(env, m, n)
    ensures var (s', p), (t', q) := BeginVaultAction(env, s, kind, m), BeginVaultAction(env, t, kind, n);
      Alike(s', t') && SameProgress(p, q)
  {
    hide DecodeUser, ParseVaultIntent, Alike, RespelledPayload, EvaluateIntent, ActionDigest, W.Derive, Lookup;
    hide Update, ToLower, Respelled;
    RespelledUser(env, m, n);
    var d, e := DecodeUser(env, m), DecodeUser(env, n);
    if d.Ok? {
      RespelledIntent(kind, d.value.0, e.value.0);
      SameJudgement(env, s, t, kind, m, n, d.value.1, e.value.1);
      JudgedAlike(env, s, t, kind, m, n, d.value.1, e.value.1);
    }
  }

  lemma SameJudgement(env: Env, s: EnclaveState, t: EnclaveState, kind: IntentKind, m: string, n: string,
                      u: string, v: string)
    requires Alike(s, t) && SameUser(u, v)
    requires var d, e := DecodeUser(env, m), DecodeUser(env, n);
      && d.Ok? && e.Ok? && d.value.1 == u && e.value.1 == v
      && ParseVaultIntent(kind, d.value.0) == ParseVaultIntent(kind, e.value.0)
    ensures SameProgress(BeginVaultAction(env, s, kind, m).1, BeginVaultAction(env, t, kind, n).1)
  {
    assert s.seed == t.seed;
    hide DecodeUser, ParseVaultIntent, Alike, EvaluateIntent, ActionDigest, W.Derive, Lookup, Update, ToLower;
    hide SameAddress, UserAlike, SameAnswer, Touch;
    LookupAlike(s, t, u, v);
    var x, y := Lookup(s.users, u), Lookup(t.users, v);
    assert x.policy.Some? <==> y.policy.Some?;
    var intent := ParseVaultIntent(kind, DecodeUser(env, m).value.0);
    if x.policy.Some? && intent.Ok? {
      OwnerIsNotJudged(x.policy.value, y.policy.value, intent.value);
    }
    if s.seed.Some? {
      W.DeriveIgnoresCase(env.crypto, s.seed.value, u, v);
    }
    SameIsSame();
  }

  predicate IsRefusal(p: Progress) {
    p.Done? && p.outcome.Failed? && p.outcome.error.Refused?
  }

  function CountRefusal(u: UserState, p: Progress): UserState {
    u.(actionsRefused := u.actionsRefused + if IsRefusal(p) then 1 else 0)
  }

  lemma WhatIsCounted(env: Env, s: EnclaveState, kind: IntentKind, m: string)
    requires DecodeUser(env, m).Ok?
    ensures var u := DecodeUser(env, m).value.1;
      var (s', p) := BeginVaultAction(env, s, kind, m);
      s' == s.(users := Update(s.users, u, CountRefusal(Lookup(s.users, u), p)))
  {
    hide DecodeUser, ParseVaultIntent, EvaluateIntent, ActionDigest, W.Derive, Lookup, ToLower;
  }

  lemma JudgedAlike(env: Env, s: EnclaveState, t: EnclaveState, kind: IntentKind, m: string, n: string,
                    u: string, v: string)
    requires Alike(s, t) && ToLower(u) == ToLower(v)
    requires var d, e := DecodeUser(env, m), DecodeUser(env, n); d.Ok? && e.Ok? && d.value.1 == u && e.value.1 == v
    requires SameProgress(BeginVaultAction(env, s, kind, m).1, BeginVaultAction(env, t, kind, n).1)
    ensures Alike(BeginVaultAction(env, s, kind, m).0, BeginVaultAction(env, t, kind, n).0)
  {
    hide BeginVaultAction, DecodeUser, Lookup, Update, Alike;
    WhatIsCounted(env, s, kind, m);
    WhatIsCounted(env, t, kind, n);
    LookupAlike(s, t, u, v);
    UpdateAlike(s, t, u, v, CountRefusal(Lookup(s.users, u), BeginVaultAction(env, s, kind, m).1),
                            CountRefusal(Lookup(t.users, v), BeginVaultAction(env, t, kind, n).1));
  }

  lemma ResumeAlike(env: Env, s: EnclaveState, t: EnclaveState, k: Continuation, l: Continuation,
                    awaited: Option<bytes>)
    requires Alike(s, t) && SameProgress(Await(k), Await(l))
    ensures var (s', o), (t', p) := Resume(env, s, k, awaited), Resume(env, t, l, awaited);
      Alike(s', t') && SameAnswer(o, p)
  {
    hide Lookup, ToLower, DestinationOf, ToDecimal, Update;
    if k.Signing? {
      LookupAlike(s, t, k.user, l.user);
      var x, y := Lookup(s.users, k.user), Lookup(t.users, l.user);
      UpdateAlike(s, t, k.user, l.user,
        x.(actionsSigned := x.actionsSigned + 1), y.(actionsSigned := y.actionsSigned + 1));
      hide Alike;
    }
  }

  lemma ApplyAlike(env: Env, s: EnclaveState, t: EnclaveState, e: Event, f: Event)
    requires Alike(s, t) && RespelledEvent(env, e, f)
    ensures var (s', o), (t', p) := Apply(env, s, e.req, e.awaited), Apply(env, t, f.req, f.awaited);
      Alike(s', t') && SameAnswer(o, p)
  {
    hide RespelledPayload, Alike, BeginVaultAction, ApplyConfirmDeposit, ApplyCreateWallet, ApplySetPolicy, Resume;
    hide SameAnswer;
    SameIsSame();
    var (s', p) := Begin(env, s, e.req);
    var (t', q) := Begin(env, t, f.req);
    match (e.req, f.req) {
      case (UpdateKey(_), UpdateKey(_)) =>
      case (CreateWallet(m), CreateWallet(n)) => CreateWalletAlike(env, s, t, m, n);
      case (SetPolicy(m), SetPolicy(n)) => SetPolicyAlike(env, s, t, m, n);
      case (ConfirmDeposit(m), ConfirmDeposit(n)) => ConfirmDepositAlike(env, s, t, m, n);
      case (VaultAction(k, m), VaultAction(_, n)) => BeginVaultActionAlike(env, s, t, k, m, n);
    }
    assert Alike(s', t') && SameProgress(p, q);
    if p.Await? {
      ResumeAlike(env, s', t', p.k, q.k, e.awaited);
    }
  }

  lemma SameIsSame()
    ensures forall o :: SameAnswer(o, o)
  {
  }

  // ---- whole runs -----------------------------------------------------------------------------

  /** Respelling the users in any run leaves the state the same and the answers the same, up to that spelling. */
  lemma {:induction false} LetterCaseIsIrrelevant(env: Env, trace: seq<Event>, respelled: seq<Event>)
    requires |trace| == |respelled| && forall k :: 0 <= k < |trace| ==> RespelledEvent(env, trace[k], respelled[k])
    ensures var (s, outcomes), (t, others) := Run(env, INITIAL, trace), Run(env, INITIAL, respelled);
      && Alike(s, t)
      && |outcomes| == |others| == |trace|
      && forall k :: 0 <= k < |trace| ==> SameAnswer(outcomes[k], others[k])
  {
    hide Apply, SameAnswer, RespelledEvent;
    if trace != [] {
      var n := |trace| - 1;
      LetterCaseIsIrrelevant(env, trace[..n], respelled[..n]);
      ApplyAlike(env, Run(env, INITIAL, trace[..n]).0, Run(env, INITIAL, respelled[..n]).0, trace[n], respelled[n]);
    }
  }
}
