/**
 Model of extension/typescript/src/app/handlers.ts. The functions say what each handler does on the seed and
 the user map alone; the class keeps them, with the wallet manager and its cache, in fields that it updates in
 place, and its methods are proved to do what the functions say.
 */
module Handlers {
  import opened Common
  import opened Encoding
  import opened PolicyGuard
  import opened Crypto
  import opened Codec
  import Fdc
  import W = Wallet

  /** The libraries the handlers call: the cryptography and JSON.parse (None when it throws). */
  datatype Env = Env(crypto: CryptoSuite, parseJson: bytes -> Option<Json>)

  datatype UserState = UserState(
    policy: Option<Policy>,
    actionsSigned: nat,
    actionsRefused: nat,
    confirmedDrops: nat,
    depositsConfirmed: nat)

  const FRESH_USER := UserState(None, 0, 0, 0, 0)

  /** One entry per user, under the lower-case spelling of the address. */
  type Users = map<string, UserState>

  datatype EnclaveState = EnclaveState(seed: Option<Word32>, users: Users)

  datatype Request =
    | UpdateKey(msg: string)
    | CreateWallet(msg: string)
    | SetPolicy(msg: string)
    | ConfirmDeposit(msg: string)
    | VaultAction(kind: IntentKind, msg: string)

  /** The JSON object a successful handler answers with. */
  datatype Reply =
    | KeyLoaded
    | WalletCreated(user: string, walletAddress: Address)
    | PolicySet(user: string, riskLevel: RiskLevel, allowedVenues: nat)
    | DepositConfirmed(user: string, receivedFxrp: string, totalConfirmedFxrp: string, reference: string)
    | Signed(user: string, signer: Address, kind: IntentKind, asset: string, amount: string, destination: string,
             digest: Word32, signature: bytes)

  datatype HandlerError =
    | InvalidHex(e: HexError)
    | InvalidJson
    | EmptyMessage
    | SeedUpdateFailed
    | NoMasterSeed
    | NotAnObjectPayload
    | BadUser
    | DeriveFailed
    | InvalidPolicy(p: ParseError)
    | NoPolicySet
    | InvalidDeposit(d: Fdc.DepositError)
    | DepositRejected(dc: Fdc.DepositCode)
    | NoManagedKey
    | InvalidIntent(p: ParseError)
    | Refused(code: DecisionCode)
    | SigningFailed

  /** Status 1, status 0, or a handler whose promise rejects. */
  datatype Outcome = Success(reply: Reply) | Failed(error: HandlerError) | Aborted

  /** What a handler keeps across its await. */
  datatype Continuation =
    | Decrypting(ciphertext: bytes)
    | Signing(user: string, intent: Intent, digest: Word32, key: Word32)

  datatype Progress = Done(outcome: Outcome) | Await(k: Continuation)

  // ---- helpers ----------------------------------------------------------------------

  /** The errors of a payload that cannot be decoded. */
  predicate PayloadError(e: HandlerError) {
    e.InvalidHex? || e.InvalidJson? || e.NotAnObjectPayload? || e.BadUser?
  }

  function DecodeJson(env: Env, msg: string): (r: Result<Json, HandlerError>)
    ensures r.Err? ==> PayloadError(r.error)
  {
    var raw := DecodeHex(msg);
    if raw.Err? then Err(InvalidHex(raw.error))
    else
      var parsed := env.parseJson(raw.value);
      if parsed.None? then Err(InvalidJson) else Ok(parsed.value)
  }

  function ReqUser(o: Json): (r: Result<string, HandlerError>)
    ensures r.Ok? ==> IsAddress(r.value)
    ensures r.Err? ==> PayloadError(r.error)
  {
    if !o.JObject? then Err(NotAnObjectPayload)
    else if "user" !in o.fields || !o.fields["user"].JString? || !IsAddress(o.fields["user"].s) then Err(BadUser)
    else Ok(o.fields["user"].s)
  }

  /** The user a payload names, once it has been decoded. */
  function DecodeUser(env: Env, msg: string): (r: Result<(Json, string), HandlerError>)
    ensures r.Ok? ==> IsAddress(r.value.1)
    ensures r.Err? ==> PayloadError(r.error)
  {
    var o :- DecodeJson(env, msg);
    var user :- ReqUser(o);
    Ok((o, user))
  }

  function Lookup(users: Users, owner: string): UserState {
    if ToLower(owner) in users then users[ToLower(owner)] else FRESH_USER
  }

  /** userState: the entry is created on first sight. */
  function Touch(users: Users, owner: string): Users {
    users[ToLower(owner) := Lookup(users, owner)]
  }

  function Update(users: Users, owner: string, u: UserState): Users {
    users[ToLower(owner) := u]
  }

  // ---- what each handler does ----------------------------------------------------------

  /** A handler up to its first await. */
  function Begin(env: Env, s: EnclaveState, req: Request): (EnclaveState, Progress) {
    match req
    case UpdateKey(msg) =>
      var raw := DecodeHex(msg);
      if raw.Err? then (s, Done(Failed(InvalidHex(raw.error))))
      else if raw.value == [] then (s, Done(Failed(EmptyMessage)))
      else (s, Await(Decrypting(raw.value)))
    case CreateWallet(msg) =>
      var (s', o) := ApplyCreateWallet(env, s, msg);
      (s', Done(o))
    case SetPolicy(msg) =>
      var (s', o) := ApplySetPolicy(env, s, msg);
      (s', Done(o))
    case ConfirmDeposit(msg) =>
      var (s', o) := ApplyConfirmDeposit(env, s, msg);
      (s', Done(o))
    case VaultAction(kind, msg) => BeginVaultAction(env, s, kind, msg)
  }

  /** The rest of a handler, once the awaited promise resolved with bytes or rejected. */
  function Resume(env: Env, s: EnclaveState, k: Continuation, awaited: Option<bytes>): (EnclaveState, Outcome) {
    match k
    case Decrypting(_) =>
      if awaited.None? || |awaited.value| != 32 then (s, Failed(SeedUpdateFailed))
      else (s.(seed := Some(awaited.value)), Success(KeyLoaded))
    case Signing(user, intent, digest, key) =>
      if awaited.None? then (s, Failed(SigningFailed))
      else
        var u := Lookup(s.users, user);
        (s.(users := Update(s.users, user, u.(actionsSigned := u.actionsSigned + 1))),
         Success(Signed(user, env.crypto.addressOf(key), intent.kind, intent.asset,
                        ToDecimal(if intent.amount >= 0 then intent.amount else 0),
                        DestinationOf(intent), digest, env.crypto.sign(key, digest))))
  }

  function ApplyCreateWallet(env: Env, s: EnclaveState, msg: string): (EnclaveState, Outcome) {
    if s.seed.None? then (s, Failed(NoMasterSeed))
    else
      var decoded := DecodeUser(env, msg);
      if decoded.Err? then (s, Failed(decoded.error))
      else
        var user := decoded.value.1;
        var wallet := W.Derive(env.crypto, s.seed.value, user);
        if wallet.Err? then (s, Failed(DeriveFailed))
        else (s.(users := Touch(s.users, user)), Success(WalletCreated(user, env.crypto.addressOf(wallet.value))))
  }

  function ApplySetPolicy(env: Env, s: EnclaveState, msg: string): (EnclaveState, Outcome) {
    var o := DecodeJson(env, msg);
    if o.Err? then (s, Failed(o.error))
    else
      var p := ParsePolicy(o.value);
      if p.Err? then (s, Failed(InvalidPolicy(p.error)))
      else
        var u := Lookup(s.users, p.value.owner);
        (s.(users := Update(s.users, p.value.owner, u.(policy := Some(p.value)))),
         Success(PolicySet(p.value.owner, p.value.riskLevel, |p.value.allowedVenues|)))
  }

  function ApplyConfirmDeposit(env: Env, s: EnclaveState, msg: string): (EnclaveState, Outcome) {
    var decoded := DecodeUser(env, msg);
    if decoded.Err? then (s, Failed(decoded.error))
    else
      var (o, user) := decoded.value;
      var u := Lookup(s.users, user);
      var touched := s.(users := Touch(s.users, user));
      if u.policy.None? then (touched, Failed(NoPolicySet))
      else
        var d := Fdc.ParseConfirmDeposit(o);
        if d.Err? then (touched, Failed(InvalidDeposit(d.error)))
        else
          var verdict := Fdc.ValidatePaymentProof(d.value);
          if verdict != Fdc.OK then (touched, Failed(DepositRejected(verdict)))
          else
            var received := d.value.proof.receivedAmount;
            var u' := u.(confirmedDrops := u.confirmedDrops + received, depositsConfirmed := u.depositsConfirmed + 1);
            (s.(users := Update(s.users, user, u')),
             Success(DepositConfirmed(user, ToDecimal(received), ToDecimal(u'.confirmedDrops),
                                      d.value.proof.standardPaymentReference)))
  }

  function BeginVaultAction(env: Env, s: EnclaveState, kind: IntentKind, msg: string): (EnclaveState, Progress) {
    var decoded := DecodeUser(env, msg);
    if decoded.Err? then (s, Done(Failed(decoded.error)))
    else
      var (o, user) := decoded.value;
      var u := Lookup(s.users, user);
      var touched := s.(users := Touch(s.users, user));
      if u.policy.None? then (touched, Done(Failed(NoPolicySet)))
      else if s.seed.None? then (touched, Done(Failed(NoManagedKey)))
      else
        var intent := ParseVaultIntent(kind, o);
        if intent.Err? then (touched, Done(Failed(InvalidIntent(intent.error))))
        else
          var decision := EvaluateIntent(u.policy.value, intent.value);
          if !decision.allow then
            (s.(users := Update(s.users, user, u.(actionsRefused := u.actionsRefused + 1))),
             Done(Failed(Refused(decision.code))))
          else
            var digest := ActionDigest(env.crypto, intent.value);
            if digest.None? then (touched, Done(Aborted))
            else
              var wallet := W.Derive(env.crypto, s.seed.value, user);
              if wallet.Err? then (touched, Done(Failed(SigningFailed)))
              else (touched, Await(Signing(user, intent.value, digest.value, wallet.value)))
  }

  /** A whole handler, run without interruption. */
  function Apply(env: Env, s: EnclaveState, req: Request, awaited: Option<bytes>): (EnclaveState, Outcome) {
    var (s', p) := Begin(env, s, req);
    if p.Done? then (s', p.outcome) else Resume(env, s', p.k, awaited)
  }

  // ---- the census ------------------------------------------------------------------------

  datatype Counter = SignedActions | RefusedActions | ConfirmedDeposits | ReceivedDrops

  function Get(u: UserState, c: Counter): nat {
    match c
    case SignedActions => u.actionsSigned
    case RefusedActions => u.actionsRefused
    case ConfirmedDeposits => u.depositsConfirmed
    case ReceivedDrops => u.confirmedDrops
  }

  /** The sum of one counter over all users. */
  ghost function Total(users: Users, c: Counter): nat
    decreases |users|
  {
    if users == map[] then 0
    else
      var k :| k in users;
      Get(users[k], c) + Total(users - {k}, c)
  }

  /** The order in which the map is walked does not matter. */
  lemma {:induction false} TotalFromAny(users: Users, k: string, c: Counter)
    requires k in users
    ensures Total(users, c) == Get(users[k], c) + Total(users - {k}, c)
    decreases |users|
  {
    hide Get;
    var j :| j in users && Total(users, c) == Get(users[j], c) + Total(users - {j}, c);
    if j != k {
      TotalFromAny(users - {j}, k, c);
      TotalFromAny(users - {k}, j, c);
      assert users - {j} - {k} == users - {k} - {j};
    }
  }

  datatype StateReport = StateReport(
    hasSeed: bool,
    users: nat,
    actionsSigned: nat,
    actionsRefused: nat,
    depositsConfirmed: nat)

  // ---- the module's state, updated in place ---------------------------------------------------

  class Enclave {
    const env: Env
    const wallets: W.WalletManager
    var users: Users

    constructor (env: Env)
      ensures Valid() && fresh(wallets) && this.env == env
      ensures State() == EnclaveState(None, map[])
    {
      this.env := env;
      wallets := new W.WalletManager(env.crypto);
      users := map[];
    }

    ghost predicate Valid()
      reads this, wallets
    {
      wallets.c == env.crypto && wallets.Valid()
    }

    ghost function State(): EnclaveState
      reads this, wallets
    {
      EnclaveState(wallets.seed, users)
    }

    method UserOf(owner: string) returns (u: UserState)
      modifies this`users
      ensures users == Touch(old(users), owner) && u == Lookup(old(users), owner)
      ensures users[ToLower(owner)] == u
    {
      var key := ToLower(owner);
      if key !in users {
        users := users[key := FRESH_USER];
      }
      u := users[key];
      assert users == Touch(old(users), owner);
    }

    method DecodeJsonMessage(msg: string) returns (r: Result<Json, HandlerError>)
      ensures r == DecodeJson(env, msg)
    {
      var raw := HexToBytes(Some(msg));
      if raw.Err? {
        return Err(InvalidHex(raw.error));
      }
      var parsed := env.parseJson(raw.value);
      return if parsed.None? then Err(InvalidJson) else Ok(parsed.value);
    }

    /** The node's decryption arrives as a parameter: the plaintext, or nothing when it throws. */
    method HandleUpdateKey(msg: string, decrypted: Option<bytes>) returns (r: Outcome)
      requires Valid()
      modifies this, wallets
      ensures Valid()
      ensures (State(), r) == Apply(env, old(State()), UpdateKey(msg), decrypted)
    {
      var raw := HexToBytes(Some(msg));
      if raw.Err? {
        return Failed(InvalidHex(raw.error));
      }
      if |raw.value| == 0 {
        return Failed(EmptyMessage);
      }
      if decrypted.None? {
        return Failed(SeedUpdateFailed);
      }
      var loaded := wallets.LoadSeed(decrypted.value);
      if loaded.Err? {
        return Failed(SeedUpdateFailed);
      }
      return Success(KeyLoaded);
    }

    method HandleCreateWallet(msg: string) returns (r: Outcome)
      requires Valid()
      modifies this, wallets
      ensures Valid()
      ensures forall awaited :: (State(), r) == Apply(env, old(State()), CreateWallet(msg), awaited)
    {
      hide W.Derive, DecodeJson, ReqUser;
      if wallets.seed.None? {
        return Failed(NoMasterSeed);
      }
      var obj := DecodeJsonMessage(msg);
      if obj.Err? {
        return Failed(obj.error);
      }
      var user := ReqUser(obj.value);
      if user.Err? {
        return Failed(user.error);
      }
      var wallet := wallets.WalletFor(user.value);
      if wallet.Err? {
        return Failed(DeriveFailed);
      }
      var u := UserOf(user.value);
      return Success(WalletCreated(user.value, env.crypto.addressOf(wallet.value)));
    }

    method HandleSetPolicy(msg: string) returns (r: Outcome)
      requires Valid()
      modifies this
      ensures Valid()
      ensures forall awaited :: (State(), r) == Apply(env, old(State()), SetPolicy(msg), awaited)
    {
      hide ParsePolicy, DecodeJson;
      var obj := DecodeJsonMessage(msg);
      if obj.Err? {
        return Failed(obj.error);
      }
      var p := ParsePolicy(obj.value);
      if p.Err? {
        return Failed(InvalidPolicy(p.error));
      }
      var u := UserOf(p.value.owner);
      users := users[ToLower(p.value.owner) := u.(policy := Some(p.value))];
      assert users == Update(old(users), p.value.owner, u.(policy := Some(p.value)));
      return Success(PolicySet(p.value.owner, p.value.riskLevel, |p.value.allowedVenues|));
    }

    method HandleConfirmDeposit(msg: string) returns (r: Outcome)
      requires Valid()
      modifies this
      ensures Valid()
      ensures forall awaited :: (State(), r) == Apply(env, old(State()), ConfirmDeposit(msg), awaited)
    {
      hide Fdc.ParseConfirmDeposit, Fdc.ValidatePaymentProof, ToDecimal, DecodeJson, ReqUser;
      var obj := DecodeJsonMessage(msg);
      if obj.Err? {
        return Failed(obj.error);
      }
      var user := ReqUser(obj.value);
      if user.Err? {
        return Failed(user.error);
      }
      var st := UserOf(user.value);
      if st.policy.None? {
        return Failed(NoPolicySet);
      }
      var parsed := Fdc.ParseConfirmDeposit(obj.value);
      if parsed.Err? {
        return Failed(InvalidDeposit(parsed.error));
      }
      var verdict := Fdc.ValidatePaymentProof(parsed.value);
      if verdict != Fdc.OK {
        return Failed(DepositRejected(verdict));
      }
      var proof := parsed.value.proof;
      st := st.(confirmedDrops := st.confirmedDrops + proof.receivedAmount);
      st := st.(depositsConfirmed := st.depositsConfirmed + 1);
      users := users[ToLower(user.value) := st];
      assert users == Update(old(users), user.value, st);
      return Success(DepositConfirmed(user.value, ToDecimal(proof.receivedAmount), ToDecimal(st.confirmedDrops),
                                      proof.standardPaymentReference));
    }

    /** The awaited signature is env.crypto.sign; the parameter says whether the promise resolved. */
    method HandleVaultAction(kind: IntentKind, msg: string, resolved: Option<bytes>) returns (r: Outcome)
      requires Valid()
      modifies this, wallets
      ensures Valid()
      ensures (State(), r) == Apply(env, old(State()), VaultAction(kind, msg), resolved)
    {
      hide ParseVaultIntent, EvaluateIntent, ActionDigest, DestinationOf, W.Derive, DecodeJson, ReqUser, ToDecimal;
      var obj := DecodeJsonMessage(msg);
      if obj.Err? {
        return Failed(obj.error);
      }
      var user := ReqUser(obj.value);
      if user.Err? {
        return Failed(user.error);
      }
      var st := UserOf(user.value);
      if st.policy.None? {
        return Failed(NoPolicySet);
      }
      if wallets.seed.None? {
        return Failed(NoManagedKey);
      }
      var parsed := ParseVaultIntent(kind, obj.value);
      if parsed.Err? {
        return Failed(InvalidIntent(parsed.error));
      }
      var intent := parsed.value;
      var decision := EvaluateIntent(st.policy.value, intent);
      if !decision.allow {
        users := users[ToLower(user.value) := st.(actionsRefused := st.actionsRefused + 1)];
        assert users == Update(old(users), user.value, st.(actionsRefused := st.actionsRefused + 1));
        return Failed(Refused(decision.code));
      }
      var digest := ActionDigest(env.crypto, intent);
      if digest.None? {
        return Aborted;
      }
      var wallet := wallets.WalletFor(user.value);
      if wallet.Err? || resolved.None? {
        return Failed(SigningFailed);
      }
      var signature := env.crypto.sign(wallet.value, digest.value);
      users := users[ToLower(user.value) := st.(actionsSigned := st.actionsSigned + 1)];
      ParsedIntentIsWellFormed(kind, obj.value);
      return Success(Signed(user.value, env.crypto.addressOf(wallet.value), intent.kind, intent.asset,
                            ToDecimal(intent.amount), DestinationOf(intent), digest.value, signature));
    }

    method ReportState() returns (r: StateReport)
      ensures r == StateReport(State().seed.Some?, |users|, Total(users, SignedActions), Total(users, RefusedActions),
                               Total(users, ConfirmedDeposits))
    {
      var signed, refused, deposits := 0, 0, 0;
      var rest := users;
      while rest != map[]
        invariant signed + Total(rest, SignedActions) == Total(users, SignedActions)
        invariant refused + Total(rest, RefusedActions) == Total(users, RefusedActions)
        invariant deposits + Total(rest, ConfirmedDeposits) == Total(users, ConfirmedDeposits)
        decreases |rest|
      {
        var k :| k in rest;
        TotalFromAny(rest, k, SignedActions);
        TotalFromAny(rest, k, RefusedActions);
        TotalFromAny(rest, k, ConfirmedDeposits);
        signed := signed + rest[k].actionsSigned;
        refused := refused + rest[k].actionsRefused;
        deposits := deposits + rest[k].depositsConfirmed;
        rest := rest - {k};
      }
      return StateReport(wallets.seed.Some?, |users|, signed, refused, deposits);
    }
  }
}
