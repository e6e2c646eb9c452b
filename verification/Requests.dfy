/** What each request is answered, told from the fields of its payload and what is stored for its user. */
module Requests {
  import opened Common
  import opened Encoding
  import opened PolicyGuard
  import opened Codec
  import opened Handlers
  import opened HandlerRuns
  import A = Abi
  import Fdc
  import W = Wallet

  /** The payload is an object that names this user. */
  predicate NamesUser(j: Json, user: string) {
    j.JObject? && HoldsString(j.fields, "user", user) && IsAddress(user)
  }

  /** The answer to a message that names nobody, by the first thing that is wrong with it. */
  ghost predicate AnswersUnnamed(env: Env, msg: string, o: Outcome) {
    var raw, j := DecodeHex(msg), Payload(env, msg);
    && (raw.Err? ==> o == Failed(InvalidHex(raw.error)))
    && (raw.Ok? && j == None ==> o == Failed(InvalidJson))
    && (j.Some? && !j.value.JObject? ==> o == Failed(NotAnObjectPayload))
    && (j.Some? && j.value.JObject? ==> o == Failed(BadUser))
  }

  lemma UserIsDecoded(env: Env, msg: string)
    ensures var j, d := Payload(env, msg), DecodeUser(env, msg);
      && (forall user :: j.Some? && NamesUser(j.value, user) ==> d == Ok((j.value, user)))
      && (d.Ok? ==> j == Some(d.value.0) && NamesUser(d.value.0, d.value.1))
      && (d.Err? ==> AnswersUnnamed(env, msg, Failed(d.error)))
  {
    PayloadIsDecoded(env, msg);
    hide DecodeJson, Payload, IsAddress, DecodeHex;
  }

  function EntryOf(s: EnclaveState, user: string): UserState {
    if ToLower(user) in s.users then s.users[ToLower(user)] else FRESH_USER
  }

  function WithEntry(s: EnclaveState, user: string, u: UserState): EnclaveState {
    s.(users := s.users[ToLower(user) := u])
  }

  /** The key that belongs to the user under this seed. */
  function KeyFor(env: Env, seed: Word32, user: string): Word32
    requires IsAddress(user)
  {
    env.crypto.keccak(seed + AddressBytes(user))
  }

  // ---- CREATE ------------------------------------------------------------------------------

  /** The user named by the payload gets an entry and is told the wallet of the key derived from the seed. */
  lemma CreateWalletAnswersExactly(env: Env, s: EnclaveState, msg: string, awaited: Option<bytes>, user: string)
    ensures var j, answer := Payload(env, msg), Apply(env, s, CreateWallet(msg), awaited);
      && (s.seed == None ==> answer == (s, Failed(NoMasterSeed)))
      && (s.seed.Some? && j.Some? && NamesUser(j.value, user) ==>
            var key := KeyFor(env, s.seed.value, user);
            answer == if env.crypto.keyOk(key) then
                        (WithEntry(s, user, EntryOf(s, user)), Success(WalletCreated(user, env.crypto.addressOf(key))))
                      else (s, Failed(DeriveFailed)))
      && (s.seed.Some? && (j == None || forall v :: !NamesUser(j.value, v)) ==>
            answer.0 == s && AnswersUnnamed(env, msg, answer.1))
  {
    UserIsDecoded(env, msg);
    hide DecodeUser, Payload, AnswersUnnamed;
    if s.seed.Some? && IsAddress(user) {
      W.DeriveForAddress(env.crypto, s.seed.value, user);
    }
    hide W.Derive, AddressBytes, IsAddress;
  }

  // ---- CONFIRM_DEPOSIT -------------------------------------------------------------------------

  /** The proof, taken from the payload's own fields, succeeded and matches the expectation as bytes. */
  predicate Matches(d: Fdc.Deposit) {
    && d.proof.status == 0
    && DecodeHex(d.proof.sourceId) == DecodeHex(d.expected.sourceId)
    && DecodeHex(d.proof.receivingAddressHash) == DecodeHex(d.expected.receivingAddressHash)
    && d.proof.receivedAmount >= d.expected.minAmount
    && DecodeHex(d.proof.standardPaymentReference) == DecodeHex(d.expected.reference)
  }

  lemma DescribedIdentifiers(o: Fields, d: Fdc.Deposit)
    requires Fdc.DescribesDeposit(o, d)
    ensures Fdc.ParseConfirmDeposit(JObject(o)) == Ok(d)
    ensures Fdc.ValidatePaymentProof(d) == Fdc.OK <==> Matches(d)
  {
    Fdc.ParsesDescribedDeposit(JObject(o), d);
    Fdc.AcceptedDepositIsExact(JObject(o));
    Fdc.Bytes32Spellings(d.proof.sourceId);
    Fdc.Bytes32Spellings(d.expected.sourceId);
    Fdc.Bytes32Spellings(d.proof.receivingAddressHash);
    Fdc.Bytes32Spellings(d.expected.receivingAddressHash);
    Fdc.Bytes32Spellings(d.proof.standardPaymentReference);
    Fdc.Bytes32Spellings(d.expected.reference);
    hide Fdc.ParseConfirmDeposit, Fdc.ValidatePaymentProof, DecodeHex, Fdc.IsBytes32, Fdc.Bytes32, HoldsAmount;
  }

  /** What a deposit is answered that the payload describes, for a user with a policy. */
  ghost predicate AnswersDeposit(s: EnclaveState, user: string, d: Fdc.Deposit, t: EnclaveState, o: Outcome) {
    var u := EntryOf(s, user);
    if Matches(d) then
      var total := u.confirmedDrops + d.proof.receivedAmount;
      && t == WithEntry(s, user, u.(confirmedDrops := total, depositsConfirmed := u.depositsConfirmed + 1))
      && o == Success(DepositConfirmed(user, ToDecimal(d.proof.receivedAmount), ToDecimal(total),
                                       d.proof.standardPaymentReference))
    else t == WithEntry(s, user, u) && o.Failed? && o.error.DepositRejected?
  }

  lemma DepositIsAnswered(env: Env, s: EnclaveState, msg: string, j: Json, user: string)
    requires DecodeUser(env, msg) == Ok((j, user)) && j.JObject? && EntryOf(s, user).policy.Some?
    ensures var (t, o) := ApplyConfirmDeposit(env, s, msg);
      && (forall d :: Fdc.DescribesDeposit(j.fields, d) ==> AnswersDeposit(s, user, d, t, o))
      && ((forall d :: !Fdc.DescribesDeposit(j.fields, d)) ==>
            t == WithEntry(s, user, EntryOf(s, user)) && o.Failed? && o.error.InvalidDeposit?)
  {
    hide DecodeUser, ToDecimal, ToLower;
    hide Fdc.ParseConfirmDeposit, Fdc.ValidatePaymentProof, Fdc.DescribesDeposit, Matches;
    if Fdc.ParseConfirmDeposit(j).Ok? {
      var d := Fdc.ParseConfirmDeposit(j).value;
      Fdc.ParsesDescribedDeposit(j, d);
      DescribedIdentifiers(j.fields, d);
      assert AnswersDeposit(s, user, d, ApplyConfirmDeposit(env, s, msg).0, ApplyConfirmDeposit(env, s, msg).1);
    }
    forall d | Fdc.DescribesDeposit(j.fields, d)
      ensures Fdc.ParseConfirmDeposit(j) == Ok(d)
    {
      Fdc.ParsesDescribedDeposit(j, d);
    }
    hide AnswersDeposit;
  }

  /**
   A deposit that the payload describes is credited in full exactly if its proof matches its expectation, for a user
   with a policy; in every other case nothing is credited.
   */
  lemma ConfirmDepositAnswersExactly(env: Env, s: EnclaveState, msg: string, awaited: Option<bytes>, user: string)
    ensures var j, (t, o) := Payload(env, msg), Apply(env, s, ConfirmDeposit(msg), awaited);
      && (j.Some? && NamesUser(j.value, user) ==>
            var u := EntryOf(s, user);
            && (u.policy == None ==> t == WithEntry(s, user, u) && o == Failed(NoPolicySet))
            && (u.policy.Some? && (forall d :: !Fdc.DescribesDeposit(j.value.fields, d)) ==>
                  t == WithEntry(s, user, u) && o.Failed? && o.error.InvalidDeposit?)
            && (u.policy.Some? ==>
                  forall d :: Fdc.DescribesDeposit(j.value.fields, d) ==> AnswersDeposit(s, user, d, t, o)))
      && (j == None || (forall v :: !NamesUser(j.value, v)) ==> t == s && AnswersUnnamed(env, msg, o))
  {
    UserIsDecoded(env, msg);
    hide DecodeUser, Payload, AnswersUnnamed, AnswersDeposit, ToDecimal, IsAddress, HoldsString, ToLower;
    hide Fdc.ParseConfirmDeposit, Fdc.ValidatePaymentProof, Fdc.DescribesDeposit;
    var j := Payload(env, msg);
    if j.Some? && NamesUser(j.value, user) && EntryOf(s, user).policy.Some? {
      DepositIsAnswered(env, s, msg, j.value, user);
      hide ApplyConfirmDeposit;
    }
  }

  // ---- ALLOCATE, REBALANCE, WITHDRAW ------------------------------------------------------------------

  /** The payload is an object that describes this intent for the operation. */
  predicate AsksFor(j: Json, kind: IntentKind, i: Intent) {
    j.JObject? && i.kind == kind && WellFormedIntent(i) && Describes(j.fields, i)
  }

  function Destination(i: Intent): string
    requires WellFormedIntent(i)
  {
    if i.kind == Withdraw then i.to.value else i.venue.value
  }

  /** What the intent moves, in the contract's terms. */
  function Moves(i: Intent): A.Action
    requires WellFormedIntent(i)
  {
    A.Action(ContractKind(i.kind), AddressBytes(i.asset), i.amount, AddressBytes(Destination(i)))
  }

  lemma IntentIsRead(j: Json, kind: IntentKind)
    requires j.JObject?
    ensures forall i :: ParseVaultIntent(kind, j) == Ok(i) <==> AsksFor(j, kind, i)
  {
    forall i
      ensures ParseVaultIntent(kind, j) == Ok(i) <==> AsksFor(j, kind, i)
    {
      if ParseVaultIntent(kind, j) == Ok(i) {
        ParsedIntentIsWellFormed(kind, j);
      }
      ParsesWhatIsDescribed(j.fields, i);
      hide ParseVaultIntent, WellFormedIntent, Describes;
    }
  }

  /** The digest that the contract recovers from, or none for an amount that is no uint256. */
  lemma DigestIsOfMove(env: Env, i: Intent)
    requires WellFormedIntent(i)
    ensures ActionDigest(env.crypto, i)
         == if i.amount < TWO_256 then Some(env.crypto.keccak(A.AbiEncode(Moves(i)))) else None
    ensures DestinationOf(i) == Destination(i)
  {
    ActionDigestIsVaultDigest(env.crypto, i);
    assert ActionOf(i) == Moves(i);
    hide ActionDigest, A.AbiEncode;
  }

  /** The signed answer to the intent. */
  function SignedAnswer(env: Env, seed: Word32, user: string, i: Intent): Reply
    requires IsAddress(user) && WellFormedIntent(i) && i.amount < TWO_256
  {
    var key, digest := KeyFor(env, seed, user), env.crypto.keccak(A.AbiEncode(Moves(i)));
    Signed(user, env.crypto.addressOf(key), i.kind, i.asset, ToDecimal(i.amount), Destination(i), digest,
           env.crypto.sign(key, digest))
  }

  /** What an intent is answered that the payload describes, for a user with a policy. */
  ghost predicate AnswersIntent(env: Env, s: EnclaveState, awaited: Option<bytes>, user: string, p: Policy, i: Intent,
                                t: EnclaveState, o: Outcome)
    requires IsAddress(user) && WellFormedPolicy(p) && WellFormedIntent(i) && s.seed.Some?
  {
    var u := EntryOf(s, user);
    if !RulesAllow(p, i) then
      t == WithEntry(s, user, u.(actionsRefused := u.actionsRefused + 1)) && o.Failed? && o.error.Refused?
    else if i.amount >= TWO_256 then t == WithEntry(s, user, u) && o == Aborted
    else if !env.crypto.keyOk(KeyFor(env, s.seed.value, user)) || awaited == None then
      t == WithEntry(s, user, u) && o == Failed(SigningFailed)
    else
      t == WithEntry(s, user, u.(actionsSigned := u.actionsSigned + 1))
      && o == Success(SignedAnswer(env, s.seed.value, user, i))
  }

  /** How far the handler gets with it before its await. */
  lemma IntentBegins(env: Env, s: EnclaveState, kind: IntentKind, msg: string, user: string, p: Policy, i: Intent)
    requires DecodeUser(env, msg).Ok? && DecodeUser(env, msg).value.1 == user && IsAddress(user)
    requires ParseVaultIntent(kind, DecodeUser(env, msg).value.0) == Ok(i) && WellFormedIntent(i)
    requires s.seed.Some? && EntryOf(s, user).policy == Some(p) && WellFormedPolicy(p)
    ensures var u := EntryOf(s, user);
      BeginVaultAction(env, s, kind, msg) ==
        if !RulesAllow(p, i) then
          (WithEntry(s, user, u.(actionsRefused := u.actionsRefused + 1)),
           Done(Failed(Refused(EvaluateIntent(p, i).code))))
        else if i.amount >= TWO_256 then (WithEntry(s, user, u), Done(Aborted))
        else
          var key := KeyFor(env, s.seed.value, user);
          if !env.crypto.keyOk(key) then (WithEntry(s, user, u), Done(Failed(SigningFailed)))
          else (WithEntry(s, user, u), Await(Signing(user, i, env.crypto.keccak(A.AbiEncode(Moves(i))), key)))
  {
    hide DecodeUser, ParseVaultIntent, EvaluateIntent, ActionDigest, W.Derive, RulesAllow, Moves, KeyFor;
    hide IsAddress, AddressBytes, WellFormedIntent, WellFormedPolicy, A.AbiEncode, ToLower, Destination, DestinationOf;
    ApprovalIsExact(p, i);
    DigestIsOfMove(env, i);
    KeyIsDerived(env, s.seed.value, user);
  }

  lemma KeyIsDerived(env: Env, seed: Word32, user: string)
    requires IsAddress(user)
    ensures var key := KeyFor(env, seed, user);
      W.Derive(env.crypto, seed, user) == if env.crypto.keyOk(key) then Ok(key) else Err(W.InvalidKey)
  {
    W.DeriveForAddress(env.crypto, seed, user);
    hide W.Derive;
  }

  lemma IntentIsAnswered(env: Env, s: EnclaveState, kind: IntentKind, msg: string, awaited: Option<bytes>,
                         user: string, p: Policy, i: Intent)
    requires DecodeUser(env, msg).Ok? && DecodeUser(env, msg).value.1 == user && IsAddress(user)
    requires ParseVaultIntent(kind, DecodeUser(env, msg).value.0) == Ok(i) && WellFormedIntent(i)
    requires s.seed.Some? && EntryOf(s, user).policy == Some(p) && WellFormedPolicy(p)
    ensures var (t, o) := Apply(env, s, VaultAction(kind, msg), awaited);
      AnswersIntent(env, s, awaited, user, p, i, t, o)
  {
    hide DecodeUser, ParseVaultIntent, EvaluateIntent, RulesAllow, ToDecimal, BeginVaultAction;
    hide DestinationOf, Destination, IsAddress, WellFormedPolicy, Moves, A.AbiEncode, ToLower, KeyFor;
    hide ApplyCreateWallet, ApplySetPolicy, ApplyConfirmDeposit;
    assert i.amount >= 0;
    hide WellFormedIntent;
    IntentBegins(env, s, kind, msg, user, p, i);
    DigestIsOfMove(env, i);
  }

  /**
   A vault action is signed, refused, aborted or failed by what its payload describes, what the user's policy allows of
   it on the bytes, and the key that belongs to the user: with the contract's code of its operation.
   */
  lemma VaultActionAnswersExactly(env: Env, s: EnclaveState, kind: IntentKind, msg: string, awaited: Option<bytes>,
                                  user: string)
    requires ValidState(s)
    ensures var j, (t, o) := Payload(env, msg), Apply(env, s, VaultAction(kind, msg), awaited);
      && (j.Some? && NamesUser(j.value, user) ==>
            var u := EntryOf(s, user);
            && (u.policy.Some? ==> WellFormedPolicy(u.policy.value))
            && (u.policy == None ==> t == WithEntry(s, user, u) && o == Failed(NoPolicySet))
            && (u.policy.Some? && s.seed == None ==> t == WithEntry(s, user, u) && o == Failed(NoManagedKey))
            && (u.policy.Some? && s.seed.Some? && (forall i :: !AsksFor(j.value, kind, i)) ==>
                  t == WithEntry(s, user, u) && o.Failed? && o.error.InvalidIntent?)
            && (u.policy.Some? && s.seed.Some? ==> forall i :: AsksFor(j.value, kind, i) ==>
                  AnswersIntent(env, s, awaited, user, u.policy.value, i, t, o)))
      && (j == None || (forall v :: !NamesUser(j.value, v)) ==> t == s && AnswersUnnamed(env, msg, o))
  {
    UserIsDecoded(env, msg);
    hide DecodeUser, Payload, AnswersUnnamed, AnswersIntent, WellFormedPolicy, IsAddress, AsksFor;
    var j := Payload(env, msg);
    if j.Some? && NamesUser(j.value, user) {
      IntentIsRead(j.value, kind);
      var u := EntryOf(s, user);
      if u.policy.Some? && s.seed.Some? && ParseVaultIntent(kind, j.value).Ok? {
        var i := ParseVaultIntent(kind, j.value).value;
        ParsedIntentIsWellFormed(kind, j.value);
        IntentIsAnswered(env, s, kind, msg, awaited, user, u.policy.value, i);
        hide Apply;
      } else {
        hide EvaluateIntent, ActionDigest, W.Derive;
      }
    }
    hide ParseVaultIntent, WellFormedIntent, HoldsString, ToLower;
  }
}
