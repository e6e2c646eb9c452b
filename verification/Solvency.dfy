/**
 What the enclave's approvals say about the vault's balance. execute pays every account from one balance, and an account
 is whatever wallet its owner registered; so they say something exactly when the registered wallets are the enclave's.
 */
module Solvency {
  import opened Common
  import opened Crypto
  import opened Handlers
  import opened EndToEnd
  import opened Payouts
  import A = Abi
  import R = HandlerRuns
  import V = Vault
  import VR = VaultRuns

  /** Every account registered in the call tree, at any depth, names one of these wallets. */
  ghost predicate RegistersOnly(wallets: iset<Address>, call: V.Call)
    decreases call, 0
  {
    match call
    case RegisterAccount(_, managedWallet, _, _) => managedWallet in wallets
    case Execute(_, _, _, token) => AllRegisterOnly(wallets, token.before) && AllRegisterOnly(wallets, token.after)
    case Group(calls, _) => AllRegisterOnly(wallets, calls)
    case _ => true
  }

  ghost predicate AllRegisterOnly(wallets: iset<Address>, calls: seq<V.Call>)
    decreases calls, 0
  {
    calls != [] ==> RegistersOnly(wallets, calls[0]) && AllRegisterOnly(wallets, calls[1..])
  }

  /** All accounts, and all executions, are under these wallets. */
  ghost predicate Enrolled(wallets: iset<Address>, st: V.VaultState) {
    && (forall o :: o in st.accounts ==> st.accounts[o].managedWallet in wallets)
    && forall x :: x in st.log ==> x.signer in wallets
  }

  lemma CheckedAccount(c: CryptoSuite, st: V.VaultState, owner: Address, a: V.Action, sig: bytes)
    requires V.Check(c, st, owner, a, sig).Ok?
    ensures owner in st.accounts && V.Check(c, st, owner, a, sig).value == st.accounts[owner]
  {
    hide V.ActionDigest, Recover;
  }

  lemma {:induction false} RunKeepsEnrolled(c: CryptoSuite, wallets: iset<Address>, st: V.VaultState, call: V.Call)
    requires Enrolled(wallets, st) && RegistersOnly(wallets, call)
    ensures Enrolled(wallets, V.Run(c, st, call).0)
    decreases call, 0
  {
    hide V.Check, V.ActionDigest;
    match call {
      case Execute(owner, a, sig, token) =>
        if V.Check(c, st, owner, a, sig).Ok? {
          CheckedAccount(c, st, owner, a, sig);
          var marked := st.(usedDigest := st.usedDigest + {V.ActionDigest(c, a)});
          RunAllKeepsEnrolled(c, wallets, marked, token.before);
          var st1 := V.RunAll(c, marked, token.before);
          var moved := st1.(held := st1.held[a.asset := V.At(st1.held, a.asset) + token.moved]);
          RunAllKeepsEnrolled(c, wallets, moved, token.after);
        }
      case Group(calls, reverts) => RunAllKeepsEnrolled(c, wallets, st, calls);
      case _ =>
    }
  }

  lemma {:induction false} RunAllKeepsEnrolled(c: CryptoSuite, wallets: iset<Address>, st: V.VaultState,
                                               calls: seq<V.Call>)
    requires Enrolled(wallets, st) && AllRegisterOnly(wallets, calls)
    ensures Enrolled(wallets, V.RunAll(c, st, calls))
    decreases calls, 0
  {
    hide Enrolled, V.Run;
    if calls != [] {
      RunKeepsEnrolled(c, wallets, st, calls[0]);
      RunAllKeepsEnrolled(c, wallets, V.Run(c, st, calls[0]).0, calls[1..]);
    }
  }

  /** If only enclave wallets are ever registered, every execution was approved by an answer given before it. */
  lemma EveryExecutionIsApproved(env: Env, wallets: iset<Address>, events: seq<SystemEvent>, n: nat,
                                 x: V.ActionExecuted)
    requires OnlyEnclaveSigns(env, wallets, events) && NoCollision(env, events) && n <= |events|
    requires AllRegisterOnly(wallets, Transactions(events))
    requires x in VaultAfter(env, events[..n]).log
    ensures exists k: nat :: k < |EnclaveTrace(events[..n])| && ApprovedAt(env, EnclaveTrace(events), k, x)
  {
    hide V.RunAll, ApprovedAt, OnlyEnclaveSigns, NoCollision, AllRegisterOnly;
    HistoryGrows(env, wallets, events, n);
    RunAllKeepsEnrolled(env.crypto, wallets, V.EMPTY, Transactions(events));
    EndToEndSoundness(env, wallets, events, n, x);
  }

  lemma {:induction false} PaidOutIsExecuted(c: CryptoSuite, vault: Address, log: seq<V.ActionExecuted>, asset: Address)
    ensures VR.PaidOut(vault, log, asset) <= Sum(ExecutedWhere(c, ExecutedOf(asset), log))
  {
    hide V.ActionDigest;
    if log != [] {
      hide Sum;
      var n := |log| - 1;
      PaidOutIsExecuted(c, vault, log[..n], asset);
      var before := ExecutedWhere(c, ExecutedOf(asset), log[..n]);
      assert before + [] == before;
      SumMore(before, (V.ActionDigest(c, log[n].action), log[n].action.amount));
    }
  }

  /**
   With conserving tokens, and if only enclave wallets are ever registered: of every token the vault holds at least
   what was paid in less what the enclave signed for that asset.
   */
  lemma BalanceIsBacked(env: Env, wallets: iset<Address>, vault: Address, events: seq<SystemEvent>, asset: Address)
    requires OnlyEnclaveSigns(env, wallets, events) && NoCollision(env, events)
    requires AllRegisterOnly(wallets, Transactions(events)) && VR.AllConserving(vault, Transactions(events))
    ensures var st := VaultAfter(env, events);
      V.At(st.held, asset) >= V.At(st.paidIn, asset) - Sum(SignedWhere(SignedOf(asset), Outcomes(env, events)))
  {
    hide V.RunAll, R.Run, ApprovedAt, OnlyEnclaveSigns, NoCollision, AllRegisterOnly, VR.AllConserving, V.At;
    hide Sum, ExecutedWhere, SignedWhere, SignedOf, V.ActionDigest;
    var log, trace := VaultAfter(env, events).log, EnclaveTrace(events);
    VR.AtMostOncePerDigest(env.crypto, Transactions(events));
    forall x | x in log && ExecutedOf(asset)(x)
      ensures exists k :: KeptApproval(env, trace, SignedOf(asset), x, k)
    {
      assert events[..|events|] == events;
      EveryExecutionIsApproved(env, wallets, events, |events|, x);
      var k: nat :| ApprovedAt(env, trace, k, x);
      ApprovedItem(env, trace, k, x);
      assert KeptApproval(env, trace, SignedOf(asset), x, k);
    }
    ApprovedSumsToNoMore(env, trace, log, ExecutedOf(asset), SignedOf(asset));
    PaidOutIsExecuted(env.crypto, vault, log, asset);
    VR.OutflowIsWhatWasExecuted(env.crypto, vault, Transactions(events), asset);
  }

  // ---- accounts under other wallets ----------------------------------------------------------------

  /** A transfer without callbacks that moves exactly the amount. */
  function Pays(vault: Address, a: V.Action): V.TokenRun {
    V.TokenRun([], 0 - VR.Outflow(vault, a), [], V.ReturnsTrue)
  }

  /** The account's withdrawal of an amount to its own return address. */
  function OwnWithdrawal(account: V.Account, amount: nat): V.Action
    requires amount < TWO_256
  {
    A.Action(V.KIND_WITHDRAW, account.asset, amount, account.returnAddress)
  }

  function SignedCall(c: CryptoSuite, vault: Address, owner: Address, key: Word32, a: V.Action): V.Call {
    V.Execute(owner, a, c.sign(key, V.ActionDigest(c, a)), Pays(vault, a))
  }

  /** Whoever holds the key of an account's wallet can withdraw any amount whose digest is unused. */
  lemma KeyHolderIsPaid(c: CryptoSuite, vault: Address, st: V.VaultState, owner: Address, key: Word32, amount: nat)
    requires SignaturesRecover(c) && c.keyOk(key) && amount < TWO_256
    requires owner in st.accounts && st.accounts[owner].managedWallet == c.addressOf(key)
    requires V.ActionDigest(c, OwnWithdrawal(st.accounts[owner], amount)) !in st.usedDigest
    ensures var a := OwnWithdrawal(st.accounts[owner], amount);
      var (paid, failed) := V.Run(c, st, SignedCall(c, vault, owner, key, a));
      && failed == None && paid.log == st.log + [V.ActionExecuted(owner, a, c.addressOf(key))]
      && V.At(paid.held, a.asset) == V.At(st.held, a.asset) - VR.Outflow(vault, a)
      && paid.paidIn == st.paidIn
  {
    var a := OwnWithdrawal(st.accounts[owner], amount);
    SignatureRecovers(c, key, V.ActionDigest(c, a));
    hide V.ActionDigest, Recover, SignaturesRecover;
    var marked := st.(usedDigest := st.usedDigest + {V.ActionDigest(c, a)});
    assert V.RunAll(c, marked, []) == marked;
  }

  lemma ApproverSigned(env: Env, trace: seq<R.Event>, k: nat, x: V.ActionExecuted)
    requires ApprovedAt(env, trace, k, x)
    ensures exists o :: o in R.Run(env, R.INITIAL, trace).1 && IsSigned(o) && o.reply.signer == x.signer
  {
    hide R.Run, S.Sound;
    assert R.Run(env, R.INITIAL, trace).1[k] in R.Run(env, R.INITIAL, trace).1;
  }

  /** No answer of the enclave approves what is executed under a wallet that it does not sign with. */
  lemma UnsignedIsUnapproved(env: Env, wallets: iset<Address>, trace: seq<R.Event>, x: V.ActionExecuted)
    requires forall o :: o in R.Run(env, R.INITIAL, trace).1 && IsSigned(o) ==> o.reply.signer in wallets
    requires x.signer !in wallets
    ensures !exists k: nat :: ApprovedAt(env, trace, k, x)
  {
    hide R.Run, ApprovedAt;
    if k: nat :| ApprovedAt(env, trace, k, x) {
      ApproverSigned(env, trace, k, x);
    }
  }

  /** An execution of a digest that the enclave did not sign adds no collision. */
  lemma UnsignedDoesNotCollide(env: Env, events: seq<SystemEvent>, more: seq<SystemEvent>, x: V.ActionExecuted)
    requires NoCollision(env, events) && EnclaveTrace(more) == EnclaveTrace(events)
    requires VaultAfter(env, more).log == VaultAfter(env, events).log + [x]
    requires forall o :: o in Outcomes(env, events) && IsSigned(o) ==>
      o.reply.digest != V.ActionDigest(env.crypto, x.action)
    ensures NoCollision(env, more)
  {
    hide V.RunAll, R.Run, A.AbiEncode, S.Sound, S.Readable, S.PrintedAction, VaultAfter;
    forall o | o in Outcomes(env, more) && IsSigned(o)
      ensures S.Readable(o.reply) && S.PrintedAction(o.reply).Fits()
      ensures o.reply.digest == env.crypto.keccak(A.AbiEncode(S.PrintedAction(o.reply)))
    {
      var k :| 0 <= k < |Outcomes(env, more)| && Outcomes(env, more)[k] == o;
      S.EverySignatureIsSound(env, EnclaveTrace(more), k);
      SoundDigest(env, R.Before(env, EnclaveTrace(more), k), o.reply);
    }
  }

  lemma TransactionAppends(env: Env, events: seq<SystemEvent>, call: V.Call)
    ensures var more := events + [OnVault(call)];
      && EnclaveTrace(more) == EnclaveTrace(events) && more[..|more| - 1] == events
      && VaultAfter(env, more) == V.Run(env.crypto, VaultAfter(env, events), call).0
  {
    hide V.Run, V.RunAll;
    var more := events + [OnVault(call)];
    assert more[..|more| - 1] == events;
    RunAllSnoc(env.crypto, V.EMPTY, Transactions(events), call);
  }

  /**
   The condition on registered wallets is needed: an account under a wallet that is not the enclave's, whose key someone
   holds, extends any run to one that meets every other hypothesis and pays what no answer of the enclave approved.
   */
  lemma OtherWalletsArePaidUnsigned(env: Env, wallets: iset<Address>, vault: Address, events: seq<SystemEvent>,
                                    owner: Address, key: Word32, amount: nat)
    requires SignaturesRecover(env.crypto) && env.crypto.keyOk(key) && amount < TWO_256
    requires OnlyEnclaveSigns(env, wallets, events) && NoCollision(env, events)
    requires env.crypto.addressOf(key) !in wallets
    requires var st := VaultAfter(env, events);
      && owner in st.accounts && st.accounts[owner].managedWallet == env.crypto.addressOf(key)
      && V.ActionDigest(env.crypto, OwnWithdrawal(st.accounts[owner], amount)) !in st.usedDigest
      && forall o :: o in Outcomes(env, events) && IsSigned(o) ==>
        && o.reply.signer in wallets
        && o.reply.digest != V.ActionDigest(env.crypto, OwnWithdrawal(st.accounts[owner], amount))
    ensures var st := VaultAfter(env, events);
      var a := OwnWithdrawal(st.accounts[owner], amount);
      var call := SignedCall(env.crypto, vault, owner, key, a);
      var (more, x) := (events + [OnVault(call)], V.ActionExecuted(owner, a, env.crypto.addressOf(key)));
      && OnlyEnclaveSigns(env, wallets, more) && NoCollision(env, more) && VR.Conserving(vault, call)
      && VaultAfter(env, more).log == st.log + [x]
      && V.At(VaultAfter(env, more).held, a.asset) == V.At(st.held, a.asset) - VR.Outflow(vault, a)
      && !exists k: nat :: ApprovedAt(env, EnclaveTrace(more), k, x)
  {
    var c, st := env.crypto, VaultAfter(env, events);
    var a := OwnWithdrawal(st.accounts[owner], amount);
    var call := SignedCall(c, vault, owner, key, a);
    var more := events + [OnVault(call)];
    SignatureRecovers(c, key, V.ActionDigest(c, a));
    hide SignaturesRecover, V.Run, V.RunAll, R.Run, Recover, V.ActionDigest, NoCollision, ApprovedAt, VaultAfter;
    hide S.Readable;
    KeyHolderIsPaid(c, vault, st, owner, key, amount);
    TransactionAppends(env, events, call);
    assert VR.Honest(c, wallets, SignaturesOf(Outcomes(env, events)), call);
    var x := V.ActionExecuted(owner, a, c.addressOf(key));
    UnsignedDoesNotCollide(env, events, more, x);
    UnsignedIsUnapproved(env, wallets, EnclaveTrace(more), x);
  }

  /**
   Such a run from the start, without any event of the enclave: others pay in, an owner registers a wallet of its own
   and its own return address, and a withdrawal signed with that wallet takes everything.
   */
  lemma PayoutWithoutEnclave(c: CryptoSuite, vault: Address, owner: Address, key: Word32, token: Address, amount: nat)
    requires SignaturesRecover(c) && c.keyOk(key) && amount < TWO_256
    requires owner != ZERO_ADDRESS && token != ZERO_ADDRESS && owner != vault
    ensures var account := V.Account(c.addressOf(key), owner, token);
      var a := OwnWithdrawal(account, amount);
      var st := V.RunAll(c, V.EMPTY, [V.PayIn(token, amount), V.RegisterAccount(owner, c.addressOf(key), owner, token),
                                      SignedCall(c, vault, owner, key, a)]);
      && V.At(st.paidIn, token) == amount && V.At(st.held, token) == 0
      && st.log == [V.ActionExecuted(owner, a, c.addressOf(key))]
  {
    var account := V.Account(c.addressOf(key), owner, token);
    var a := OwnWithdrawal(account, amount);
    var calls := [V.PayIn(token, amount), V.RegisterAccount(owner, c.addressOf(key), owner, token),
                  SignedCall(c, vault, owner, key, a)];
    SignatureRecovers(c, key, Zeros(32));
    var st1 := V.Run(c, V.EMPTY, calls[0]).0;
    var st2 := V.Run(c, st1, calls[1]).0;
    assert st2.accounts == map[owner := account];
    KeyHolderIsPaid(c, vault, st2, owner, key, amount);
    var st3 := V.Run(c, st2, calls[2]).0;
    hide V.ActionDigest, Recover, SignaturesRecover, V.Run;
    assert calls[1..] == [calls[1], calls[2]] && [calls[1], calls[2]][1..] == [calls[2]] && [calls[2]][1..] == [];
    assert V.RunAll(c, st3, []) == st3;
    assert V.RunAll(c, st2, [calls[2]]) == V.RunAll(c, st3, []);
    assert V.RunAll(c, st1, [calls[1], calls[2]]) == V.RunAll(c, st2, [calls[2]]);
  }

}
