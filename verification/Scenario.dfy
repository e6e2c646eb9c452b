/** Concrete runs: an example suite and payloads, and what happens on them. */
module Scenario {
  import opened Common
  import opened Encoding
  import opened PolicyGuard
  import opened Crypto
  import opened Codec
  import opened Handlers
  import opened HandlerRuns
  import Ab = Aborts
  import A = Abi
  import EE = EndToEnd
  import G = Signing
  import P = Payouts
  import T = Tenants
  import V = Vault
  import VR = VaultRuns
  import W = Wallet

  // ---- an example of the cryptography ---------------------------------------------------------

  function ExampleAddress(k: Word32): Address {
    [1] + k[13..]
  }

  /** The user's bytes out of a derivation, and the first word of anything else. */
  function ExampleHash(b: bytes): Word32 {
    if |b| == 52 then Zeros(12) + b[32..] else if |b| >= 32 then b[..32] else b + Zeros(32 - |b|)
  }

  /** A suite in which a signature carries its signer's address. */
  function ExampleSuite(): CryptoSuite {
    CryptoSuite(
      (b: bytes) => ExampleHash(b),
      (k: Word32) => true,
      (k: Word32) => ExampleAddress(k),
      (k: Word32, d: Word32) => Zeros(12) + ExampleAddress(k) + d + [27],
      (h: Word32, v: byte, r: Word32, s: Word32) => r[12..])
  }

  /** The hypothesis on signatures can be met. */
  lemma SignatureHypothesisIsConsistent()
    ensures SignaturesRecover(ExampleSuite()) && ExampleSuite().keyOk(Zeros(32))
  {
    var c := ExampleSuite();
    forall k: Word32, d: Word32
      ensures SignsRecoverably(c, k, d) && c.addressOf(k) != ZERO_ADDRESS
    {
      var r: Word32 := Zeros(12) + ExampleAddress(k);
      assert r[12..] == ExampleAddress(k) && ExampleAddress(k)[0] == 1;
      assert SignsAs(c, k, d, r, d, 0);
    }
  }

  // ---- withdrawals --------------------------------------------------------------------------------

  /** An authorized withdrawal of amount to a policy's return address. */
  function Withdrawal(user: string, p: Policy, amount: nat): Json {
    JObject(map["user" := JString(user), "asset" := JString(p.asset), "amount" := JString(ToDecimal(amount)),
                "to" := JString(p.returnAddress), "userAuthorized" := JBool(true)])
  }

  function WithdrawalIntent(p: Policy, amount: nat): Intent {
    Intent(Withdraw, p.asset, amount, None, Some(p.returnAddress), true, None, None, None)
  }

  lemma WithdrawalParses(user: string, p: Policy, amount: nat)
    requires IsAddress(user) && WellFormedPolicy(p)
    ensures ReqUser(Withdrawal(user, p, amount)) == Ok(user)
    ensures ParseVaultIntent(Withdraw, Withdrawal(user, p, amount)) == Ok(WithdrawalIntent(p, amount))
    ensures 0 < amount <= p.maxTxAmount ==> EvaluateIntent(p, WithdrawalIntent(p, amount)).allow
  {
    DecimalRoundTrip(amount);
    ParsesWhatIsDescribed(Withdrawal(user, p, amount).fields, WithdrawalIntent(p, amount));
    assert p.asset != "" && p.returnAddress != "";
    hide IsAddress, DecimalValue, ToDecimal, ParseVaultIntent, IsDecimal;
  }

  lemma WithdrawalDecodes(env: Env, msg: string, user: string, p: Policy, amount: nat)
    requires IsAddress(user) && WellFormedPolicy(p) && DecodeJson(env, msg) == Ok(Withdrawal(user, p, amount))
    ensures DecodeUser(env, msg) == Ok((Withdrawal(user, p, amount), user))
  {
    WithdrawalParses(user, p, amount);
    hide ReqUser, Withdrawal, DecodeJson, ParseVaultIntent, EvaluateIntent, WellFormedPolicy, IsAddress;
  }

  /** An approved intent gets to its signature if its amount is a uint256 and the key is valid. */
  lemma ApprovedBegins(env: Env, s: EnclaveState, msg: string, payload: Json, user: string, p: Policy, i: Intent)
    requires DecodeUser(env, msg) == Ok((payload, user)) && ParseVaultIntent(i.kind, payload) == Ok(i)
    requires s.seed.Some? && Lookup(s.users, user).policy == Some(p) && EvaluateIntent(p, i).allow
    ensures var after := BeginVaultAction(env, s, i.kind, msg).1;
      var digest, key := ActionDigest(env.crypto, i), W.Derive(env.crypto, s.seed.value, user);
      && (digest == None <==> i.amount >= TWO_256)
      && (digest == None ==> after == Done(Aborted))
      && (digest.Some? && key.Ok? ==> after == Await(Continuation.Signing(user, i, digest.value, key.value)))
  {
    hide ParseVaultIntent, EvaluateIntent, ActionDigest, W.Derive, DecodeUser;
    Ab.DigestThrowsOnLarge(env.crypto, i.kind, payload);
  }

  /** What an approved intent is answered: a signature if the key is valid, or an abort if the amount is no uint256. */
  lemma ApprovedAnswer(env: Env, s: EnclaveState, msg: string, payload: Json, user: string, p: Policy, i: Intent,
                       awaited: Option<bytes>)
    requires DecodeUser(env, msg) == Ok((payload, user)) && ParseVaultIntent(i.kind, payload) == Ok(i)
    requires s.seed.Some? && Lookup(s.users, user).policy == Some(p) && EvaluateIntent(p, i).allow && awaited.Some?
    ensures i.amount >= 0
    ensures var o := Apply(env, s, VaultAction(i.kind, msg), awaited).1;
      && (i.amount >= TWO_256 ==> o == Aborted)
      && (i.amount < TWO_256 && W.Derive(env.crypto, s.seed.value, user).Ok? ==>
            && o.Success? && o.reply.Signed? && o.reply.user == user && o.reply.kind == i.kind
            && o.reply.asset == i.asset && o.reply.amount == ToDecimal(i.amount)
            && o.reply.destination == DestinationOf(i)
            && o.reply.signer == env.crypto.addressOf(W.Derive(env.crypto, s.seed.value, user).value))
  {
    hide BeginVaultAction, ActionDigest, W.Derive, ToDecimal, DestinationOf, ParseVaultIntent, EvaluateIntent;
    hide DecodeUser;
    hide ApplyCreateWallet, ApplySetPolicy, ApplyConfirmDeposit, Lookup, Update;
    assert i.amount >= 0 by { ParsedIntentIsWellFormed(i.kind, payload); }
    ApprovedBegins(env, s, msg, payload, user, p, i);
  }

  /** Within the cap it is signed if its amount is a uint256 and the key is valid, and aborts if the amount is none. */
  lemma WithdrawalAnswer(env: Env, s: EnclaveState, msg: string, user: string, p: Policy, amount: nat,
                         awaited: Option<bytes>)
    requires IsAddress(user) && WellFormedPolicy(p) && 0 < amount <= p.maxTxAmount
    requires DecodeJson(env, msg) == Ok(Withdrawal(user, p, amount))
    requires s.seed.Some? && Lookup(s.users, user).policy == Some(p) && awaited.Some?
    ensures var o := Apply(env, s, VaultAction(Withdraw, msg), awaited).1;
      && (amount >= TWO_256 ==> o == Aborted)
      && (amount < TWO_256 && W.Derive(env.crypto, s.seed.value, user).Ok? ==>
            && o.Success? && o.reply.Signed? && o.reply.user == user && o.reply.kind == Withdraw
            && o.reply.asset == p.asset && o.reply.amount == ToDecimal(amount) && o.reply.destination == p.returnAddress
            && o.reply.signer == env.crypto.addressOf(W.Derive(env.crypto, s.seed.value, user).value))
  {
    hide Apply, W.Derive, Withdrawal, WellFormedPolicy, ToDecimal, DecodeJson, DecodeUser, IsAddress, ParseVaultIntent;
    hide EvaluateIntent, Lookup;
    WithdrawalParses(user, p, amount);
    WithdrawalDecodes(env, msg, user, p, amount);
    ApprovedAnswer(env, s, msg, Withdrawal(user, p, amount), user, p, WithdrawalIntent(p, amount), awaited);
  }

  lemma PolicyIsSet(env: Env, s: EnclaveState, msg: string, p: Policy, awaited: Option<bytes>)
    requires WellFormedPolicy(p) && DecodeJson(env, msg) == Ok(PrintPolicy(p))
    ensures Apply(env, s, SetPolicy(msg), awaited) ==
      (s.(users := Update(s.users, p.owner, Lookup(s.users, p.owner).(policy := Some(p)))),
       Success(PolicySet(p.owner, p.riskLevel, |p.allowedVenues|)))
  {
    PolicyRoundTrip(p);
    hide ParsePolicy, PrintPolicy, DecodeJson;
  }

  // ---- the runs --------------------------------------------------------------------------------------

  /** An address that ends in the given hex digit. */
  function AddressEnding(c: char): (a: string)
    requires IsHexDigit(c)
    ensures IsAddress(a)
  {
    "0x" + seq(39, (_: nat) => '0') + [c]
  }

  const ALICE := AddressEnding('1')
  const BOB := AddressEnding('2')

  /** Both users' policies name the same asset and the same return address. */
  function SharedPolicy(owner: string, cap: nat): (p: Policy)
    requires IsAddress(owner)
    ensures WellFormedPolicy(p)
  {
    Policy(owner, AddressEnding('3'), Moderate, AddressEnding('4'), [AddressEnding('5')], 5000, cap, 0)
  }

  /** Message [0] carries the seed; the others decode to the given payloads. */
  function ExampleEnv(payloads: map<bytes, Json>): Env {
    Env(ExampleSuite(), (b: bytes) => if b in payloads then Some(payloads[b]) else None)
  }

  lemma Decodes(payloads: map<bytes, Json>, b: bytes)
    ensures DecodeJson(ExampleEnv(payloads), EncodeHex(b))
         == if b in payloads then Ok(payloads[b]) else Err(InvalidJson)
  {
    HexRoundTrip(b);
    hide EncodeHex, DecodeHex;
  }

  const SEED_DELIVERY := Event(UpdateKey(EncodeHex([0])), Some(Zeros(32)))

  lemma SeedIsLoaded(env: Env, s: EnclaveState)
    ensures Apply(env, s, SEED_DELIVERY.req, SEED_DELIVERY.awaited) == (s.(seed := Some(Zeros(32))), Success(KeyLoaded))
  {
    HexRoundTrip([0]);
    hide EncodeHex, DecodeHex;
  }

  lemma RunSnoc(env: Env, trace: seq<Event>, e: Event)
    ensures var (s, outcomes) := Run(env, INITIAL, trace);
      var (t, o) := Apply(env, s, e.req, e.awaited);
      Run(env, INITIAL, trace + [e]) == (t, outcomes + [o])
  {
    hide Apply;
    assert (trace + [e])[..|trace|] == trace;
  }

  function SetPolicyEvent(b: bytes): Event {
    Event(SetPolicy(EncodeHex(b)), None)
  }

  function WithdrawEvent(b: bytes): Event {
    Event(VaultAction(Withdraw, EncodeHex(b)), Some([]))
  }

  /** A seed, a policy with a cap of 2^256, and a withdrawal of 2^256 base units: the third handler aborts. */
  lemma AbortingRun()
    ensures var p := SharedPolicy(ALICE, TWO_256);
      var env := ExampleEnv(map[[1] := PrintPolicy(p), [2] := Withdrawal(ALICE, p, TWO_256)]);
      Run(env, INITIAL, [SEED_DELIVERY, SetPolicyEvent([1]), WithdrawEvent([2])]).1
      == [Success(KeyLoaded), Success(PolicySet(ALICE, Moderate, 1)), Aborted]
  {
    hide Apply, PrintPolicy, Withdrawal, EncodeHex, DecodeJson;
    var p := SharedPolicy(ALICE, TWO_256);
    var payloads := map[[1] := PrintPolicy(p), [2] := Withdrawal(ALICE, p, TWO_256)];
    var env := ExampleEnv(payloads);
    Decodes(payloads, [1]);
    Decodes(payloads, [2]);
    assert [1][0] != [2][0];
    assert Run(env, INITIAL, []) == (INITIAL, []);
    RunSnoc(env, [], SEED_DELIVERY);
    SeedIsLoaded(env, INITIAL);
    assert [] + [SEED_DELIVERY] == [SEED_DELIVERY];
    hide Run;
    var s1 := Run(env, INITIAL, [SEED_DELIVERY]).0;
    RunSnoc(env, [SEED_DELIVERY], SetPolicyEvent([1]));
    PolicyIsSet(env, s1, EncodeHex([1]), p, None);
    assert [SEED_DELIVERY] + [SetPolicyEvent([1])] == [SEED_DELIVERY, SetPolicyEvent([1])];
    var s2 := Run(env, INITIAL, [SEED_DELIVERY, SetPolicyEvent([1])]).0;
    RunSnoc(env, [SEED_DELIVERY, SetPolicyEvent([1])], WithdrawEvent([2]));
    WithdrawalAnswer(env, s2, EncodeHex([2]), ALICE, p, TWO_256, Some([]));
    assert [SEED_DELIVERY, SetPolicyEvent([1])] + [WithdrawEvent([2])]
        == [SEED_DELIVERY, SetPolicyEvent([1]), WithdrawEvent([2])];
  }

  // ---- one digest for two users ------------------------------------------------------------------------

  /**
   The digest covers no owner and no nonce: once an action was executed, every other signed answer that prints the same
   action, of the same user or of another, is stopped by Replay, whatever happens in between.
   */
  lemma SecondIsReplay(env: Env, s: EnclaveState, r: Reply, t: EnclaveState, q: Reply, st: V.VaultState,
                       owner: Address, token: V.TokenRun, between: seq<V.Call>, other: Address, again: V.TokenRun)
    requires G.Sound(env, s, r) && G.Sound(env, t, q) && G.PrintedAction(r) == G.PrintedAction(q)
    requires G.PrintedAction(r).Fits()
    requires V.Run(env.crypto, st, V.Execute(owner, G.PrintedAction(r), r.signature, token)).1 == None
    ensures var paid := V.Run(env.crypto, st, V.Execute(owner, G.PrintedAction(r), r.signature, token)).0;
      var later := V.RunAll(env.crypto, paid, between);
      V.CheckDestination(later, other, G.PrintedAction(q)).Ok? ==>
        V.Run(env.crypto, later, V.Execute(other, G.PrintedAction(q), q.signature, again)) == (later, Some(V.Replay))
  {
    var a := G.PrintedAction(r);
    var paid := V.Run(env.crypto, st, V.Execute(owner, a, r.signature, token)).0;
    ExecutedIsUsed(env.crypto, st, owner, a, r.signature, token);
    VR.RunAllKeepsLog(env.crypto, paid, between);
    hide G.Sound, V.CheckDestination, V.RunAll, V.ActionDigest;
  }

  lemma ExecutedIsUsed(c: CryptoSuite, st: V.VaultState, owner: Address, a: V.Action, sig: bytes, token: V.TokenRun)
    requires V.Run(c, st, V.Execute(owner, a, sig, token)).1 == None
    ensures V.ActionDigest(c, a) in V.Run(c, st, V.Execute(owner, a, sig, token)).0.usedDigest
  {
    hide V.Check, V.ActionDigest;
    var marked := st.(usedDigest := st.usedDigest + {V.ActionDigest(c, a)});
    VR.RunAllKeepsLog(c, marked, token.before);
    var st1 := V.RunAll(c, marked, token.before);
    VR.RunAllKeepsLog(c, st1.(held := st1.held[a.asset := V.At(st1.held, a.asset) + token.moved]), token.after);
  }

  const TWO_USERS := [SEED_DELIVERY, SetPolicyEvent([1]), SetPolicyEvent([2]), WithdrawEvent([3]), WithdrawEvent([4])]

  function TwoUsersEnv(): Env {
    var p, q := SharedPolicy(ALICE, 9), SharedPolicy(BOB, 9);
    ExampleEnv(map[[1] := PrintPolicy(p), [2] := PrintPolicy(q),
                   [3] := Withdrawal(ALICE, p, 5), [4] := Withdrawal(BOB, q, 5)])
  }

  lemma AliceAndBob()
    ensures IsAddress(ALICE) && IsAddress(BOB) && ToLower(ALICE) != ToLower(BOB)
    ensures AddressBytes(ALICE) != AddressBytes(BOB)
    ensures AddressBytes(ALICE)[1..] != AddressBytes(BOB)[1..]
  {
    assert ToLower(ALICE)[41] != ToLower(BOB)[41];
    assert ALICE[2..][39] == '1' && BOB[2..][39] == '2' && ALICE[2..][38] == BOB[2..][38] == '0';
    assert AddressBytes(ALICE)[19] == 1 && AddressBytes(BOB)[19] == 2;
    assert AddressBytes(ALICE)[1..][18] != AddressBytes(BOB)[1..][18];
  }

  lemma TwoUsersState()
    ensures var s := Run(TwoUsersEnv(), INITIAL, TWO_USERS[..3]).0;
      && s.seed == Some(Zeros(32))
      && Lookup(s.users, ALICE).policy == Some(SharedPolicy(ALICE, 9))
      && Lookup(s.users, BOB).policy == Some(SharedPolicy(BOB, 9))
  {
    hide Apply, PrintPolicy, Withdrawal, EncodeHex, DecodeJson, ToLower, ALICE, BOB;
    var env := TwoUsersEnv();
    AliceAndBob();
    TwoUsersMessages();
    assert TWO_USERS[..1] == [] + [SEED_DELIVERY] && TWO_USERS[..2] == TWO_USERS[..1] + [SetPolicyEvent([1])]
        && TWO_USERS[..3] == TWO_USERS[..2] + [SetPolicyEvent([2])];
    assert Run(env, INITIAL, []) == (INITIAL, []);
    RunSnoc(env, [], SEED_DELIVERY);
    RunSnoc(env, TWO_USERS[..1], SetPolicyEvent([1]));
    RunSnoc(env, TWO_USERS[..2], SetPolicyEvent([2]));
    hide Run, TWO_USERS, TwoUsersEnv;
    SeedIsLoaded(env, INITIAL);
    PolicyIsSet(env, Run(env, INITIAL, TWO_USERS[..1]).0, EncodeHex([1]), SharedPolicy(ALICE, 9), None);
    PolicyIsSet(env, Run(env, INITIAL, TWO_USERS[..2]).0, EncodeHex([2]), SharedPolicy(BOB, 9), None);
  }

  lemma TwoUsersMessages()
    ensures var env := TwoUsersEnv();
      && DecodeJson(env, EncodeHex([1])) == Ok(PrintPolicy(SharedPolicy(ALICE, 9)))
      && DecodeJson(env, EncodeHex([2])) == Ok(PrintPolicy(SharedPolicy(BOB, 9)))
      && DecodeJson(env, EncodeHex([3])) == Ok(Withdrawal(ALICE, SharedPolicy(ALICE, 9), 5))
      && DecodeJson(env, EncodeHex([4])) == Ok(Withdrawal(BOB, SharedPolicy(BOB, 9), 5))
  {
    AliceAndBob();
    hide PrintPolicy, Withdrawal, EncodeHex, DecodeJson, ALICE, BOB;
    var p, q := SharedPolicy(ALICE, 9), SharedPolicy(BOB, 9);
    var payloads := map[[1] := PrintPolicy(p), [2] := PrintPolicy(q),
                        [3] := Withdrawal(ALICE, p, 5), [4] := Withdrawal(BOB, q, 5)];
    Decodes(payloads, [1]);
    Decodes(payloads, [2]);
    Decodes(payloads, [3]);
    Decodes(payloads, [4]);
    assert [1][0] != [2][0] && [1][0] != [3][0] && [1][0] != [4][0];
    assert [2][0] != [3][0] && [2][0] != [4][0] && [3][0] != [4][0];
  }

  const RETURN := AddressEnding('3')
  const ASSET := AddressEnding('4')

  /** What both users' withdrawals print. */
  function SharedAction(): A.Action {
    A.Action(3, AddressBytes(ASSET), 5, AddressBytes(RETURN))
  }

  function WalletOf(user: string): Address
    requires IsAddress(user)
  {
    ExampleAddress(ExampleHash(Zeros(32) + AddressBytes(user)))
  }

  lemma DifferentWallets()
    ensures IsAddress(ALICE) && IsAddress(BOB) && WalletOf(ALICE) != WalletOf(BOB)
    ensures WalletOf(ALICE) != ZERO_ADDRESS && WalletOf(BOB) != ZERO_ADDRESS
  {
    AliceAndBob();
    hide ALICE, BOB, AddressBytes, IsAddress;
    WalletShape(ALICE);
    WalletShape(BOB);
    hide WalletOf;
    assert WalletOf(ALICE)[1..] != WalletOf(BOB)[1..];
    assert ZERO_ADDRESS[0] == 0;
  }

  lemma WalletShape(user: string)
    requires IsAddress(user)
    ensures WalletOf(user)[0] == 1 && WalletOf(user)[1..] == AddressBytes(user)[1..]
  {
    var m := Zeros(32) + AddressBytes(user);
    assert m[32..] == AddressBytes(user);
    assert ExampleHash(m)[13..] == AddressBytes(user)[1..];
    hide AddressBytes;
  }

  lemma WalletDerived(user: string)
    requires IsAddress(user)
    ensures var key := W.Derive(ExampleSuite(), Zeros(32), user);
      key.Ok? && ExampleSuite().addressOf(key.value) == WalletOf(user)
  {
    hide ExampleHash, ExampleAddress, AddressBytes;
  }

  /** The answer is a signature on the shared action by the user's own wallet. */
  ghost predicate SignsShared(env: Env, s: EnclaveState, o: Outcome, user: string) {
    && o.Success? && o.reply.Signed? && G.Sound(env, s, o.reply) && G.Readable(o.reply)
    && o.reply.user == user && G.PrintedAction(o.reply) == SharedAction()
    && IsAddress(user) && o.reply.signer == WalletOf(user)
  }

  /** A sound answer on five units of the shared asset to the shared return address prints the shared action. */
  lemma SharedReply(env: Env, s: EnclaveState, r: Reply)
    requires G.Sound(env, s, r)
    requires r.kind == Withdraw && r.asset == ASSET && r.amount == ToDecimal(5) && r.destination == RETURN
    ensures G.Readable(r) && G.PrintedAction(r) == SharedAction()
  {
    DecimalRoundTrip(5);
    SoundIsReadable(env, s, r);
    hide G.Sound, ToDecimal, DecimalValue, ASSET, RETURN, AddressBytes;
  }

  lemma SharedWithdrawal(s: EnclaveState, user: string, b: bytes)
    requires IsAddress(user) && ValidState(s) && s.seed == Some(Zeros(32))
    requires Lookup(s.users, user).policy == Some(SharedPolicy(user, 9))
    requires DecodeJson(TwoUsersEnv(), EncodeHex(b)) == Ok(Withdrawal(user, SharedPolicy(user, 9), 5))
    ensures var e := WithdrawEvent(b);
      SignsShared(TwoUsersEnv(), s, Apply(TwoUsersEnv(), s, e.req, e.awaited).1, user)
  {
    var env, p, e := TwoUsersEnv(), SharedPolicy(user, 9), WithdrawEvent(b);
    assert env.crypto == ExampleSuite();
    assert p.asset == ASSET && p.returnAddress == RETURN && p.maxTxAmount == 9;
    hide TwoUsersEnv, ExampleSuite, Apply, PrintPolicy, Withdrawal, EncodeHex, DecodeJson, WalletOf, ASSET, RETURN;
    hide SharedPolicy, G.Sound, G.PrintedAction, G.Readable, ToDecimal, DecimalValue, W.Derive, SharedAction;
    hide WellFormedPolicy, ValidState, IsAddress, Lookup;
    WalletDerived(user);
    WithdrawalAnswer(env, s, EncodeHex(b), user, p, 5, Some([]));
    G.SignedRequestIsSound(env, s, e);
    SharedReply(env, s, Apply(env, s, e.req, e.awaited).1.reply);
  }

  lemma SoundIsReadable(env: Env, s: EnclaveState, r: Reply)
    requires G.Sound(env, s, r)
    ensures G.Readable(r)
  {
  }

  lemma TwoUsersEvents()
    ensures |TWO_USERS| == 5 && TWO_USERS[3] == WithdrawEvent([3]) && TWO_USERS[4] == WithdrawEvent([4])
    ensures TWO_USERS[..4] == TWO_USERS[..3] + [WithdrawEvent([3])]
  {
  }

  /** Alice's withdrawal leaves Bob's policy and the seed as they were. */
  lemma BobsTurn()
    ensures var t := Before(TwoUsersEnv(), TWO_USERS, 4);
      t.seed == Some(Zeros(32)) && Lookup(t.users, BOB).policy == Some(SharedPolicy(BOB, 9))
  {
    AliceAndBob();
    TwoUsersState();
    TwoUsersMessages();
    TwoUsersEvents();
    hide ALICE, BOB, TwoUsersEnv, TWO_USERS, ToLower, Apply, EncodeHex, DecodeJson, Withdrawal, SharedPolicy, Lookup;
    hide IsAddress, WellFormedPolicy;
    var env := TwoUsersEnv();
    RunSnoc(env, TWO_USERS[..3], WithdrawEvent([3]));
    hide Run;
    NamesUser(env, EncodeHex([3]), ALICE, SharedPolicy(ALICE, 9), 5);
    OthersKeep(env, Before(env, TWO_USERS, 3), WithdrawEvent([3]), ALICE, BOB);
  }

  lemma AnswerShares(k: nat, user: string, b: bytes)
    requires k < |TWO_USERS| && TWO_USERS[k] == WithdrawEvent(b) && IsAddress(user)
    requires var s := Before(TwoUsersEnv(), TWO_USERS, k);
      s.seed == Some(Zeros(32)) && Lookup(s.users, user).policy == Some(SharedPolicy(user, 9))
    requires DecodeJson(TwoUsersEnv(), EncodeHex(b)) == Ok(Withdrawal(user, SharedPolicy(user, 9), 5))
    ensures var env := TwoUsersEnv();
      SignsShared(env, Before(env, TWO_USERS, k), Run(env, INITIAL, TWO_USERS).1[k], user)
  {
    hide TwoUsersEnv, TWO_USERS, ToLower, Apply, EncodeHex, DecodeJson, Withdrawal, Run, SharedPolicy, Lookup;
    hide SignsShared;
    hide IsAddress, WellFormedPolicy, ValidState;
    OutcomeAt(TwoUsersEnv(), TWO_USERS, k);
    RunKeepsValid(TwoUsersEnv(), TWO_USERS[..k]);
    SharedWithdrawal(Before(TwoUsersEnv(), TWO_USERS, k), user, b);
  }

  /** Two users ask for the same action; each is answered with a signature by the user's own wallet. */
  lemma TwoUsersAnswers()
    ensures var env := TwoUsersEnv();
      var outcomes := Run(env, INITIAL, TWO_USERS).1;
      && SignsShared(env, Before(env, TWO_USERS, 3), outcomes[3], ALICE)
      && SignsShared(env, Before(env, TWO_USERS, 4), outcomes[4], BOB)
  {
    AliceAndBob();
    TwoUsersState();
    TwoUsersMessages();
    TwoUsersEvents();
    BobsTurn();
    hide ALICE, BOB, TwoUsersEnv, TWO_USERS, ToLower, EncodeHex, DecodeJson, Withdrawal, Run, SharedPolicy, Lookup;
    hide IsAddress, SignsShared;
    AnswerShares(3, ALICE, [3]);
    AnswerShares(4, BOB, [4]);
  }

  lemma NamesUser(env: Env, msg: string, user: string, p: Policy, amount: nat)
    requires IsAddress(user) && WellFormedPolicy(p) && DecodeJson(env, msg) == Ok(Withdrawal(user, p, amount))
    ensures T.UserKey(env, VaultAction(Withdraw, msg)) == Some(ToLower(user))
  {
    WithdrawalParses(user, p, amount);
    hide Withdrawal, DecodeJson, ReqUser, ToLower, IsAddress;
  }

  lemma OthersKeep(env: Env, s: EnclaveState, e: Event, user: string, other: string)
    requires e.req.VaultAction? && T.UserKey(env, e.req) == Some(ToLower(user)) && ToLower(other) != ToLower(user)
    ensures var t := Apply(env, s, e.req, e.awaited).0;
      t.seed == s.seed && Lookup(t.users, other) == Lookup(s.users, other)
  {
    hide Apply, ToLower, T.UserKey;
    T.OthersStep(env, ToLower(other), s, e);
  }

  const PAYS := V.TokenRun([], -5, [], V.ReturnsTrue)

  predicate IsNonZero(a: V.Account) {
    a.managedWallet != ZERO_ADDRESS && a.returnAddress != ZERO_ADDRESS && a.asset != ZERO_ADDRESS
  }

  function RegisterCall(sender: Address, a: V.Account): V.Call {
    V.RegisterAccount(sender, a.managedWallet, a.returnAddress, a.asset)
  }

  lemma RegisteringAdds(c: CryptoSuite, st: V.VaultState, sender: Address, a: V.Account)
    requires IsNonZero(a)
    ensures V.Run(c, st, RegisterCall(sender, a)).0 == st.(accounts := st.accounts[sender := a])
  {
  }

  lemma RegisteringTwo(c: CryptoSuite, x: Address, a: V.Account, y: Address, b: V.Account)
    requires IsNonZero(a) && IsNonZero(b)
    ensures V.RunAll(c, V.EMPTY, [RegisterCall(x, a), RegisterCall(y, b)])
         == V.EMPTY.(accounts := V.EMPTY.accounts[x := a][y := b])
  {
    RegisteringAdds(c, V.EMPTY, x, a);
    var st1 := V.EMPTY.(accounts := V.EMPTY.accounts[x := a]);
    RegisteringAdds(c, st1, y, b);
    hide V.Run, IsNonZero;
    var calls := [RegisterCall(x, a), RegisterCall(y, b)];
    var st2 := V.Run(c, st1, calls[1]).0;
    assert calls[1..] == [calls[1]] && [calls[1]][1..] == [];
    assert V.RunAll(c, st2, []) == st2;
    assert V.RunAll(c, st1, [calls[1]]) == V.RunAll(c, st2, [calls[1]][1..]);
  }

  lemma SharedAddressesNonZero()
    ensures AddressBytes(RETURN) != ZERO_ADDRESS && AddressBytes(ASSET) != ZERO_ADDRESS
  {
    assert RETURN[2..][39] == '3' && ASSET[2..][39] == '4' && RETURN[2..][38] == ASSET[2..][38] == '0';
    assert AddressBytes(RETURN)[19] == 3 && AddressBytes(ASSET)[19] == 4 && ZERO_ADDRESS[19] == 0;
  }

  /** The account under the wallet that the enclave gave the user. */
  function SharedAccount(user: string): V.Account
    requires IsAddress(user)
  {
    V.Account(WalletOf(user), AddressBytes(RETURN), AddressBytes(ASSET))
  }

  lemma SharedAccountsNonZero()
    ensures IsAddress(ALICE) && IsAddress(BOB)
    ensures IsNonZero(SharedAccount(ALICE)) && IsNonZero(SharedAccount(BOB))
  {
    DifferentWallets();
    SharedAddressesNonZero();
    hide ALICE, BOB, RETURN, ASSET, WalletOf, AddressBytes, IsAddress;
  }

  /** Both register the wallet that the enclave gave them. */
  function Registrations(): seq<V.Call> {
    AliceAndBob();
    [RegisterCall(AddressBytes(ALICE), SharedAccount(ALICE)), RegisterCall(AddressBytes(BOB), SharedAccount(BOB))]
  }

  lemma Registered()
    ensures IsAddress(ALICE) && IsAddress(BOB)
    ensures var st := V.RunAll(ExampleSuite(), V.EMPTY, Registrations());
      && AddressBytes(ALICE) in st.accounts && AddressBytes(BOB) in st.accounts && st.usedDigest == {} && st.log == []
      && st.accounts[AddressBytes(ALICE)] == SharedAccount(ALICE)
      && st.accounts[AddressBytes(BOB)] == SharedAccount(BOB)
  {
    AliceAndBob();
    SharedAccountsNonZero();
    hide ALICE, BOB, WalletOf, SharedAccount, IsNonZero, ExampleSuite, AddressBytes, IsAddress, V.RunAll;
    RegisteringTwo(ExampleSuite(), AddressBytes(ALICE), SharedAccount(ALICE), AddressBytes(BOB), SharedAccount(BOB));
  }

  /** Of two answers that sign the shared action, for these two accounts, the first is paid and the second replays. */
  lemma SecondSharedReplays(env: Env, s: EnclaveState, o: Outcome, t: EnclaveState, p: Outcome)
    requires env.crypto == ExampleSuite() && SignsShared(env, s, o, ALICE) && SignsShared(env, t, p, BOB)
    ensures SharedAction().Fits() && o.reply.signer != p.reply.signer
    ensures var st := V.RunAll(env.crypto, V.EMPTY, Registrations());
      var (paid, first) := V.Run(env.crypto, st,
        V.Execute(AddressBytes(ALICE), SharedAction(), o.reply.signature, PAYS));
      && first == None && |paid.log| == 1
      && V.Run(env.crypto, paid, V.Execute(AddressBytes(BOB), SharedAction(), p.reply.signature, PAYS))
         == (paid, Some(V.Replay))
  {
    AliceAndBob();
    DifferentWallets();
    Registered();
    SignatureHypothesisIsConsistent();
    hide ALICE, BOB, RETURN, ASSET, WalletOf, ExampleSuite, AddressBytes, Registrations;
    var r, q := o.reply, p.reply;
    var st := V.RunAll(env.crypto, V.EMPTY, Registrations());
    P.SoundRecovers(env, s, r);
    EE.SoundDigest(env, s, r);
    hide SignaturesRecover, G.Sound;
    PaidOnce(env.crypto, st, AddressBytes(ALICE), r.signature, r.signer);
    SecondIsReplay(env, s, r, t, q, st, AddressBytes(ALICE), PAYS, [], AddressBytes(BOB), PAYS);
    var paid := V.Run(env.crypto, st, V.Execute(AddressBytes(ALICE), SharedAction(), r.signature, PAYS)).0;
    assert V.RunAll(env.crypto, paid, []) == paid;
    hide V.Run, V.RunAll, SharedAction;
  }

  /** Alice's withdrawal is paid; Bob's, signed by his own wallet for his own account, is the same message: Replay. */
  lemma SecondUserIsReplayed()
    ensures var env := TwoUsersEnv();
      var outcomes := Run(env, INITIAL, TWO_USERS).1;
      && outcomes[3].Success? && outcomes[3].reply.Signed? && outcomes[4].Success? && outcomes[4].reply.Signed?
      && outcomes[3].reply.signer != outcomes[4].reply.signer
      && SharedAction().Fits()
      && var st := V.RunAll(env.crypto, V.EMPTY, Registrations());
         var (paid, first) := V.Run(env.crypto, st,
           V.Execute(AddressBytes(ALICE), SharedAction(), outcomes[3].reply.signature, PAYS));
      && first == None && |paid.log| == 1
      && V.Run(env.crypto, paid, V.Execute(AddressBytes(BOB), SharedAction(), outcomes[4].reply.signature, PAYS))
         == (paid, Some(V.Replay))
  {
    var env := TwoUsersEnv();
    assert env.crypto == ExampleSuite();
    TwoUsersAnswers();
    hide TwoUsersEnv, ALICE, BOB, RETURN, ASSET, ExampleSuite, AddressBytes, Run, TWO_USERS, Registrations, Before;
    var outcomes := Run(env, INITIAL, TWO_USERS).1;
    SecondSharedReplays(env, Before(env, TWO_USERS, 3), outcomes[3], Before(env, TWO_USERS, 4), outcomes[4]);
    hide V.Run, V.RunAll, SharedAction, G.Sound;
  }

  /** With no nested calls, an execution that passes its checks marks its digest, moves the balance and is logged. */
  lemma PaidOnce(c: CryptoSuite, st: V.VaultState, owner: Address, sig: bytes, wallet: Address)
    requires owner in st.accounts && st.accounts[owner] == V.Account(wallet, AddressBytes(RETURN), AddressBytes(ASSET))
    requires st.usedDigest == {} && st.log == []
    requires SharedAction().Fits() && Recover(c, V.ActionDigest(c, SharedAction()), sig) == wallet
    ensures var (paid, r) := V.Run(c, st, V.Execute(owner, SharedAction(), sig, PAYS));
      r == None && |paid.log| == 1 && paid.accounts == st.accounts
  {
    hide V.ActionDigest, Recover, AddressBytes, RETURN, ASSET;
    var marked := st.(usedDigest := st.usedDigest + {V.ActionDigest(c, SharedAction())});
    assert V.RunAll(c, marked, []) == marked;
  }
}
