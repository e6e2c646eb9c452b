/** How much the vault pays out, and what it takes for a signature to be paid. */
module Payouts {
  import opened Common
  import opened Encoding
  import opened PolicyGuard
  import opened Crypto
  import opened Codec
  import opened Handlers
  import opened EndToEnd
  import R = HandlerRuns
  import B = Bookkeeping
  import T = Tenants
  import S = Signing
  import A = Abi
  import V = Vault
  import VR = VaultRuns
  import W = Wallet

  // ---- conservation ---------------------------------------------------------------

  /** A digest with the amount it stands for. */
  type Item = (Word32, nat)

  function Sum(items: seq<Item>): nat {
    if items == [] then 0 else Sum(items[..|items| - 1]) + items[|items| - 1].1
  }

  lemma {:induction false} SumWithout(items: seq<Item>, k: nat)
    requires k < |items|
    ensures Sum(items) == Sum(items[..k] + items[k + 1..]) + items[k].1
  {
    var n := |items| - 1;
    if k == n {
      assert items[..k] + items[k + 1..] == items[..n];
    } else {
      SumWithout(items[..n], k);
      var rest := items[..k] + items[k + 1..];
      assert rest[..|rest| - 1] == items[..n][..k] + items[..n][k + 1..];
      assert rest[|rest| - 1] == items[n];
    }
  }

  predicate DistinctKeys(items: seq<Item>) {
    forall i, j :: 0 <= i < j < |items| ==> items[i].0 != items[j].0
  }

  /** Items with distinct digests, all found among others, sum to no more. */
  lemma {:induction false} SumOfSome(some: seq<Item>, all: seq<Item>)
    requires DistinctKeys(some)
    requires forall x :: x in some ==> x in all
    ensures Sum(some) <= Sum(all)
  {
    if some != [] {
      var n := |some| - 1;
      assert some[n] in some;
      var k :| 0 <= k < |all| && all[k] == some[n];
      var rest := all[..k] + all[k + 1..];
      forall x | x in some[..n]
        ensures x in rest
      {
        var i :| 0 <= i < n && some[i] == x;
        assert some[i] in some;
        var j :| 0 <= j < |all| && all[j] == x;
        assert j != k;
        assert x == rest[if j < k then j else j - 1];
      }
      SumOfSome(some[..n], rest);
      SumWithout(all, k);
    }
  }

  /** Which executions, and which answers, are summed up. */
  type Executions = V.ActionExecuted -> bool
  type Answered = Reply -> bool

  function UnderWallet(wallet: Address): Executions {
    (x: V.ActionExecuted) => x.signer == wallet
  }

  function WithWallet(wallet: Address): Answered {
    (r: Reply) => r.Signed? && r.signer == wallet
  }

  function ExecutedOf(asset: Address): Executions {
    (x: V.ActionExecuted) => x.action.asset == asset
  }

  function SignedOf(asset: Address): Answered {
    (r: Reply) => S.Readable(r) && AddressBytes(r.asset) == asset
  }

  /** The items of the executions that are kept. */
  function ExecutedWhere(c: CryptoSuite, keep: Executions, log: seq<V.ActionExecuted>): seq<Item> {
    if log == [] then []
    else
      var x := log[|log| - 1];
      ExecutedWhere(c, keep, log[..|log| - 1]) +
      (if keep(x) then [(V.ActionDigest(c, x.action), x.action.amount)] else [])
  }

  /** The items of the signed answers that are kept. */
  function SignedWhere(keep: Answered, outcomes: seq<Outcome>): seq<Item> {
    if outcomes == [] then []
    else
      var o := outcomes[|outcomes| - 1];
      SignedWhere(keep, outcomes[..|outcomes| - 1]) +
      (if IsSigned(o) && keep(o.reply) then [(o.reply.digest, S.SignedAmount(o))] else [])
  }

  predicate IsItemOf(c: CryptoSuite, keep: Executions, x: V.ActionExecuted, item: Item) {
    keep(x) && item == (V.ActionDigest(c, x.action), x.action.amount)
  }

  lemma {:induction false} ExecutedItems(c: CryptoSuite, keep: Executions, log: seq<V.ActionExecuted>)
    requires VR.DistinctDigests(c, log)
    ensures var items := ExecutedWhere(c, keep, log);
      DistinctKeys(items) && forall item :: item in items ==> exists x :: x in log && IsItemOf(c, keep, x, item)
  {
    hide V.ActionDigest;
    if log != [] {
      var n := |log| - 1;
      var before := ExecutedWhere(c, keep, log[..n]);
      ExecutedItems(c, keep, log[..n]);
      forall item | item in before
        ensures exists x :: x in log && IsItemOf(c, keep, x, item)
        ensures item.0 != V.ActionDigest(c, log[n].action)
      {
        var x :| x in log[..n] && IsItemOf(c, keep, x, item);
        var i :| 0 <= i < n && log[i] == x;
        assert x in log;
      }
      forall i | 0 <= i < |before|
        ensures before[i].0 != V.ActionDigest(c, log[n].action)
      {
        assert before[i] in before;
      }
      assert log[n] in log;
      assert keep(log[n]) ==> IsItemOf(c, keep, log[n], (V.ActionDigest(c, log[n].action), log[n].action.amount));
    }
  }

  lemma {:induction false} SignedItem(keep: Answered, outcomes: seq<Outcome>, k: nat)
    requires k < |outcomes| && IsSigned(outcomes[k]) && keep(outcomes[k].reply)
    ensures (outcomes[k].reply.digest, S.SignedAmount(outcomes[k])) in SignedWhere(keep, outcomes)
  {
    if k < |outcomes| - 1 {
      SignedItem(keep, outcomes[..|outcomes| - 1], k);
    }
  }

  lemma ApprovedItem(env: Env, trace: seq<R.Event>, k: nat, x: V.ActionExecuted)
    requires ApprovedAt(env, trace, k, x)
    ensures k < |trace| && IsSigned(R.Run(env, R.INITIAL, trace).1[k])
    ensures var o := R.Run(env, R.INITIAL, trace).1[k];
      && (o.reply.digest, S.SignedAmount(o)) == (V.ActionDigest(env.crypto, x.action), x.action.amount)
      && WithWallet(x.signer)(o.reply) && SignedOf(x.action.asset)(o.reply)
  {
    hide A.AbiEncode, R.Run;
  }

  /** Answer k of the run approved x, and is one of those kept. */
  ghost predicate KeptApproval(env: Env, trace: seq<R.Event>, keep: Answered, x: V.ActionExecuted, k: nat) {
    ApprovedAt(env, trace, k, x) && keep(R.Run(env, R.INITIAL, trace).1[k].reply)
  }

  /** Executions with distinct digests, each approved by an answer that is kept, sum to no more than those answers. */
  lemma ApprovedSumsToNoMore(env: Env, trace: seq<R.Event>, log: seq<V.ActionExecuted>, kept: Executions,
                             keep: Answered)
    requires VR.DistinctDigests(env.crypto, log)
    requires forall x :: x in log && kept(x) ==> exists k :: KeptApproval(env, trace, keep, x, k)
    ensures Sum(ExecutedWhere(env.crypto, kept, log)) <= Sum(SignedWhere(keep, R.Run(env, R.INITIAL, trace).1))
  {
    hide R.Run, ApprovedAt, V.ActionDigest, WithWallet, SignedOf;
    var outcomes := R.Run(env, R.INITIAL, trace).1;
    ExecutedItems(env.crypto, kept, log);
    var items := ExecutedWhere(env.crypto, kept, log);
    forall item | item in items
      ensures item in SignedWhere(keep, outcomes)
    {
      var x :| x in log && IsItemOf(env.crypto, kept, x, item);
      var k: nat :| KeptApproval(env, trace, keep, x, k);
      ApprovedItem(env, trace, k, x);
      SignedItem(keep, outcomes, k);
    }
    SumOfSome(items, SignedWhere(keep, outcomes));
  }

  /**
   Over every run of the system, the total the vault executed under an enclave wallet is at most the total the
   enclave signed with it, however often signatures are presented and whatever tokens call back.
   */
  lemma PaidIsAtMostSigned(env: Env, wallets: iset<Address>, wallet: Address, events: seq<SystemEvent>)
    requires OnlyEnclaveSigns(env, wallets, events) && NoCollision(env, events) && wallet in wallets
    ensures Sum(ExecutedWhere(env.crypto, UnderWallet(wallet), VaultAfter(env, events).log))
         <= Sum(SignedWhere(WithWallet(wallet), Outcomes(env, events)))
  {
    hide R.Run, V.RunAll, ApprovedAt, NoCollision, OnlyEnclaveSigns, V.ActionDigest, SignedOf;
    var log, trace := VaultAfter(env, events).log, EnclaveTrace(events);
    VR.AtMostOncePerDigest(env.crypto, Transactions(events));
    forall x | x in log && UnderWallet(wallet)(x)
      ensures exists k :: KeptApproval(env, trace, WithWallet(wallet), x, k)
    {
      ExecutionIsApproved(env, wallets, events, x);
      var k: nat :| ApprovedAt(env, trace, k, x);
      ApprovedItem(env, trace, k, x);
      assert KeptApproval(env, trace, WithWallet(wallet), x, k);
    }
    ApprovedSumsToNoMore(env, trace, log, UnderWallet(wallet), WithWallet(wallet));
  }

  // ---- one user's wallet -----------------------------------------------------------------

  /** At some moment of the run the wallet is the one derived for the user. */
  ghost predicate IsDerivedFor(env: Env, user: string, wallet: Address, trace: seq<R.Event>, j: nat)
    requires IsAddress(user)
  {
    && j <= |trace| && R.Before(env, trace, j).seed.Some?
    && wallet == env.crypto.addressOf(env.crypto.keccak(R.Before(env, trace, j).seed.value + AddressBytes(user)))
  }

  /** Neither the hash nor the address of a key collides on these two derivation inputs. */
  predicate KeysDiffer(c: CryptoSuite, m: bytes, n: bytes) {
    && (c.keccak(m) == c.keccak(n) ==> m == n)
    && (c.addressOf(c.keccak(m)) == c.addressOf(c.keccak(n)) ==> c.keccak(m) == c.keccak(n))
  }

  /** The 52-byte inputs of the run's signatures do not collide with the user's. */
  ghost predicate NoDerivationCollision(env: Env, user: string, trace: seq<R.Event>)
    requires IsAddress(user)
  {
    forall k, j ::
      && 0 <= k < |trace| && 0 <= j <= |trace| && IsSigned(R.Run(env, R.INITIAL, trace).1[k])
      && IsAddress(R.Run(env, R.INITIAL, trace).1[k].reply.user)
      && R.Before(env, trace, k).seed.Some? && R.Before(env, trace, j).seed.Some? ==>
        KeysDiffer(env.crypto,
          R.Before(env, trace, k).seed.value + AddressBytes(R.Run(env, R.INITIAL, trace).1[k].reply.user),
          R.Before(env, trace, j).seed.value + AddressBytes(user))
  }

  lemma SoundSigner(env: Env, s: EnclaveState, r: Reply)
    requires S.Sound(env, s, r)
    ensures r.Signed? && IsAddress(r.user) && s.seed.Some?
    ensures r.signer == env.crypto.addressOf(env.crypto.keccak(s.seed.value + AddressBytes(r.user)))
  {
    W.DeriveForAddress(env.crypto, s.seed.value, r.user);
    hide A.AbiEncode, WellFormedPolicy, W.Derive, PermittedDestination;
  }

  /** What is signed with a user's wallet is signed for that user, and answers that user's own requests. */
  lemma SignedWithIsMine(env: Env, user: string, wallet: Address, trace: seq<R.Event>, j: nat, k: nat)
    requires IsAddress(user) && IsDerivedFor(env, user, wallet, trace, j) && NoDerivationCollision(env, user, trace)
    requires k < |trace|
    requires var o := R.Run(env, R.INITIAL, trace).1[k]; IsSigned(o) && o.reply.signer == wallet
    ensures T.Mine(env, ToLower(user), trace[k])
  {
    hide R.Run, R.ValidState, T.Mine, S.Sound, AddressBytes, ToLower;
    var o := R.Run(env, R.INITIAL, trace).1[k];
    R.OutcomeAt(env, trace, k);
    R.RunKeepsValid(env, trace[..k]);
    S.SignedRequestIsSound(env, R.Before(env, trace, k), trace[k]);
    SoundSigner(env, R.Before(env, trace, k), o.reply);
    var m := R.Before(env, trace, k).seed.value + AddressBytes(o.reply.user);
    var n := R.Before(env, trace, j).seed.value + AddressBytes(user);
    assert KeysDiffer(env.crypto, m, n);
    assert m[32..] == AddressBytes(o.reply.user) && n[32..] == AddressBytes(user);
    AddressCase(o.reply.user, user);
  }

  lemma SumMore(items: seq<Item>, item: Item)
    ensures Sum(items + [item]) == Sum(items) + item.1
  {
    assert (items + [item])[..|items|] == items;
  }

  lemma SignedTotalMore(outcomes: seq<Outcome>, o: Outcome)
    ensures S.SignedTotal(outcomes + [o]) == S.SignedTotal(outcomes) + S.SignedAmount(o)
  {
    hide S.SignedAmount;
    assert (outcomes + [o])[..|outcomes|] == outcomes;
  }

  lemma {:induction false} SignedWithIsAnswered(env: Env, u: string, keep: Answered, trace: seq<R.Event>,
                                                outcomes: seq<Outcome>)
    requires |trace| == |outcomes|
    requires forall k :: 0 <= k < |trace| && IsSigned(outcomes[k]) && keep(outcomes[k].reply) ==>
      T.Mine(env, u, trace[k])
    ensures Sum(SignedWhere(keep, outcomes)) <= S.SignedTotal(T.Answers(env, u, trace, outcomes))
  {
    hide T.Mine, S.SignedAmount;
    if trace != [] {
      hide Sum, S.SignedTotal;
      var n := |trace| - 1;
      var o := outcomes[n];
      var before, mine := SignedWhere(keep, outcomes[..n]), T.Answers(env, u, trace[..n], outcomes[..n]);
      assert before + [] == before && mine + [] == mine;
      SignedWithIsAnswered(env, u, keep, trace[..n], outcomes[..n]);
      if IsSigned(o) {
        SumMore(before, (o.reply.digest, S.SignedAmount(o)));
      }
      SignedTotalMore(mine, o);
    }
  }

  /**
   While no policy of a user allows more than cap per action, the vault pays out for a wallet derived for the user at
   most the number of the user's signed actions times cap.
   */
  lemma PaidIsCapped(env: Env, wallets: iset<Address>, wallet: Address, user: string, j: nat,
                     events: seq<SystemEvent>, cap: nat)
    requires OnlyEnclaveSigns(env, wallets, events) && NoCollision(env, events) && wallet in wallets
    requires IsAddress(user) && IsDerivedFor(env, user, wallet, EnclaveTrace(events), j)
    requires NoDerivationCollision(env, user, EnclaveTrace(events))
    requires S.CappedBy(env, ToLower(user), EnclaveTrace(events), cap)
    ensures var s := R.Run(env, R.INITIAL, EnclaveTrace(events)).0;
      Sum(ExecutedWhere(env.crypto, UnderWallet(wallet), VaultAfter(env, events).log))
      <= B.Entry(s.users, ToLower(user)).actionsSigned * cap
  {
    hide R.Run, V.RunAll, NoCollision, OnlyEnclaveSigns, S.CappedBy, NoDerivationCollision, IsDerivedFor, Sum;
    hide S.SignedTotal;
    PaidIsAtMostSigned(env, wallets, wallet, events);
    var trace, outcomes, keep := EnclaveTrace(events), Outcomes(env, events), WithWallet(wallet);
    forall k | 0 <= k < |trace| && IsSigned(outcomes[k]) && keep(outcomes[k].reply)
      ensures T.Mine(env, ToLower(user), trace[k])
    {
      SignedWithIsMine(env, user, wallet, trace, j, k);
    }
    SignedWithIsAnswered(env, ToLower(user), keep, trace, outcomes);
    S.SignedTotalIsBounded(env, ToLower(user), trace, cap);
  }

  // ---- completeness -------------------------------------------------------------------

  /** The vault account says what the policy says: same wallet, return address and asset, every venue enabled. */
  ghost predicate Mirrors(st: V.VaultState, owner: Address, wallet: Address, p: Policy)
    requires WellFormedPolicy(p)
  {
    && owner in st.accounts
    && st.accounts[owner] == V.Account(wallet, AddressBytes(p.returnAddress), AddressBytes(p.asset))
    && forall v :: v in p.allowedVenues ==> V.IsAllowed(st, owner, AddressBytes(v))
  }

  /**
   For an account that mirrors the policy, every signature the enclave gives passes all of execute's checks if and only
   if its digest is unused; a used digest is the only thing that stops it before the transfer. The preview is good
   either way.
   */
  lemma EndToEndCompleteness(env: Env, s: EnclaveState, e: R.Event, st: V.VaultState, owner: Address)
    requires SignaturesRecover(env.crypto) && R.ValidState(s)
    requires IsSigned(Apply(env, s, e.req, e.awaited).1)
    requires var r := Apply(env, s, e.req, e.awaited).1.reply;
      var p := Lookup(s.users, r.user).policy;
      p.Some? && WellFormedPolicy(p.value) && Mirrors(st, owner, r.signer, p.value)
    ensures var r := Apply(env, s, e.req, e.awaited).1.reply;
      && S.Readable(r) && S.PrintedAction(r).Fits()
      && var a := S.PrintedAction(r);
      && SameKind(r.kind, a.kind)
      && V.PreviewOf(env.crypto, st, owner, a, r.signature) == V.Preview(true, r.signer, "ok")
      && V.Check(env.crypto, st, owner, a, r.signature) ==
           if V.ActionDigest(env.crypto, a) in st.usedDigest then Err(V.Replay) else Ok(st.accounts[owner])
  {
    S.SignedRequestIsSound(env, s, e);
    var r := Apply(env, s, e.req, e.awaited).1.reply;
    hide Apply;
    SoundDigest(env, s, r);
    SoundIsMirrored(env, s, r, st, owner);
    SoundRecovers(env, s, r);
    hide S.Sound, Mirrors, A.AbiEncode, V.CheckDestination, Recover, S.PrintedAction;
  }

  /** Such a signature, presented once, is paid whenever the token's transfer returns true, whatever that calls back. */
  lemma SignedIsPayable(env: Env, s: EnclaveState, e: R.Event, st: V.VaultState, owner: Address, token: V.TokenRun)
    requires SignaturesRecover(env.crypto) && R.ValidState(s)
    requires IsSigned(Apply(env, s, e.req, e.awaited).1)
    requires var r := Apply(env, s, e.req, e.awaited).1.reply;
      var p := Lookup(s.users, r.user).policy;
      p.Some? && WellFormedPolicy(p.value) && Mirrors(st, owner, r.signer, p.value)
      && r.digest !in st.usedDigest && token.result == V.ReturnsTrue
    ensures var r := Apply(env, s, e.req, e.awaited).1.reply;
      && S.Readable(r) && S.PrintedAction(r).Fits()
      && var (st', failed) := V.Run(env.crypto, st, V.Execute(owner, S.PrintedAction(r), r.signature, token));
      && failed == None && st'.log != []
      && st'.log[|st'.log| - 1] == V.ActionExecuted(owner, S.PrintedAction(r), r.signer)
  {
    EndToEndCompleteness(env, s, e, st, owner);
    S.SignedRequestIsSound(env, s, e);
    var r := Apply(env, s, e.req, e.awaited).1.reply;
    hide Apply, R.ValidState, SignaturesRecover;
    SoundDigest(env, s, r);
    SoundIsMirrored(env, s, r, st, owner);
    hide S.Sound, Mirrors, A.AbiEncode, V.Check, V.RunAll, S.PrintedAction, WellFormedPolicy, V.PreviewOf;
  }

  lemma SoundIsMirrored(env: Env, s: EnclaveState, r: Reply, st: V.VaultState, owner: Address)
    requires S.Sound(env, s, r)
    requires var p := Lookup(s.users, r.user).policy.value; Mirrors(st, owner, r.signer, p)
    ensures var p := Lookup(s.users, r.user).policy.value;
      V.CheckDestination(st, owner, S.PrintedAction(r)) == Ok(st.accounts[owner])
      && st.accounts[owner].managedWallet == r.signer
  {
    hide A.AbiEncode, WellFormedPolicy, W.Derive;
  }

  lemma SoundRecovers(env: Env, s: EnclaveState, r: Reply)
    requires S.Sound(env, s, r) && SignaturesRecover(env.crypto)
    ensures Recover(env.crypto, r.digest, r.signature) == r.signer
  {
    hide A.AbiEncode, PermittedDestination, WellFormedPolicy, W.Derive, Recover, SignaturesRecover;
    SignatureRecovers(env.crypto, W.Derive(env.crypto, s.seed.value, r.user).value, r.digest);
  }
}
