/** What holds over every run of the vault, whatever its tokens call back. */
module VaultRuns {
  import opened Common
  import opened Crypto
  import opened Vault

  // ---- at most one committed transfer per digest ------------------------------------------

  function Digests(c: CryptoSuite, log: seq<ActionExecuted>): (d: set<Word32>)
    ensures forall e :: e in log ==> ActionDigest(c, e.action) in d
    ensures forall w :: w in d ==> exists e :: e in log && ActionDigest(c, e.action) == w
  {
    set e | e in log :: ActionDigest(c, e.action)
  }

  predicate DistinctDigests(c: CryptoSuite, log: seq<ActionExecuted>) {
    forall i, j :: 0 <= i < j < |log| ==> ActionDigest(c, log[i].action) != ActionDigest(c, log[j].action)
  }

  /** The used digests are those of the committed executions and, apart from them, of the open ones. */
  ghost predicate DigestInv(c: CryptoSuite, st: VaultState, open: set<Word32>) {
    && st.usedDigest == Digests(c, st.log) + open
    && Digests(c, st.log) !! open
    && DistinctDigests(c, st.log)
  }

  lemma LogExtends(c: CryptoSuite, log: seq<ActionExecuted>, e: ActionExecuted)
    ensures Digests(c, log + [e]) == Digests(c, log) + {ActionDigest(c, e.action)}
    ensures ActionDigest(c, e.action) !in Digests(c, log) && DistinctDigests(c, log) ==> DistinctDigests(c, log + [e])
  {
    hide ActionDigest;
    assert (log + [e])[|log|] == e;
  }

  lemma {:induction false} RunKeepsDigests(c: CryptoSuite, st: VaultState, call: Call, open: set<Word32>)
    requires DigestInv(c, st, open)
    ensures DigestInv(c, Run(c, st, call).0, open)
    decreases call, 0
  {
    hide ActionDigest, CheckDestination;
    match call {
      case Execute(owner, a, sig, token) =>
        if Check(c, st, owner, a, sig).Ok? {
          var d := ActionDigest(c, a);
          var marked := st.(usedDigest := st.usedDigest + {d});
          RunAllKeepsDigests(c, marked, token.before, open + {d});
          var st1 := RunAll(c, marked, token.before);
          var moved := st1.(held := st1.held[a.asset := At(st1.held, a.asset) + token.moved]);
          RunAllKeepsDigests(c, moved, token.after, open + {d});
          var st2 := RunAll(c, moved, token.after);
          LogExtends(c, st2.log, ActionExecuted(owner, a, Check(c, st, owner, a, sig).value.managedWallet));
        }
      case Group(calls, reverts) => RunAllKeepsDigests(c, st, calls, open);
      case _ =>
    }
  }

  lemma {:induction false} RunAllKeepsDigests(c: CryptoSuite, st: VaultState, calls: seq<Call>, open: set<Word32>)
    requires DigestInv(c, st, open)
    ensures DigestInv(c, RunAll(c, st, calls), open)
    decreases calls, 0
  {
    hide DigestInv, Run;
    if calls != [] {
      RunKeepsDigests(c, st, calls[0], open);
      RunAllKeepsDigests(c, Run(c, st, calls[0]).0, calls[1..], open);
    }
  }

  /** In every run each digest is executed at most once, and a digest is used if and only if it was executed. */
  lemma AtMostOncePerDigest(c: CryptoSuite, transactions: seq<Call>)
    ensures var st := RunAll(c, EMPTY, transactions);
      DistinctDigests(c, st.log) && st.usedDigest == Digests(c, st.log)
  {
    RunAllKeepsDigests(c, EMPTY, transactions, {});
  }

  // ---- the ledger ---------------------------------------------------------------------------

  /** Every transfer that returns true moves exactly its amount out, or nothing when it pays the vault itself. */
  predicate Conserving(vault: Address, call: Call)
    decreases call, 0
  {
    match call
    case Execute(_, a, _, token) =>
      && (token.result == ReturnsTrue ==> token.moved + Outflow(vault, a) == 0)
      && AllConserving(vault, token.before) && AllConserving(vault, token.after)
    case Group(calls, _) => AllConserving(vault, calls)
    case _ => true
  }

  predicate AllConserving(vault: Address, calls: seq<Call>)
    decreases calls, 0
  {
    calls != [] ==> Conserving(vault, calls[0]) && AllConserving(vault, calls[1..])
  }

  /** What an action takes out of the vault. */
  function Outflow(vault: Address, a: Action): nat {
    if a.dest == vault then 0 else a.amount
  }

  function PaidOut(vault: Address, log: seq<ActionExecuted>, token: Address): nat {
    if log == [] then 0
    else
      var last := log[|log| - 1].action;
      PaidOut(vault, log[..|log| - 1], token) + (if last.asset == token then Outflow(vault, last) else 0)
  }

  /** The balance is what came in, less what was executed, less what open executions have already moved. */
  ghost predicate Balanced(vault: Address, st: VaultState, moved: map<Address, int>) {
    forall t: Address :: At(st.held, t) == At(st.paidIn, t) - PaidOut(vault, st.log, t) - At(moved, t)
  }

  lemma LogPays(vault: Address, log: seq<ActionExecuted>, e: ActionExecuted, t: Address)
    ensures PaidOut(vault, log + [e], t) ==
      PaidOut(vault, log, t) + (if e.action.asset == t then Outflow(vault, e.action) else 0)
  {
    assert (log + [e])[..|log|] == log;
  }

  lemma SameLedger(vault: Address, s: VaultState, t: VaultState, owed: map<Address, int>)
    requires Balanced(vault, s, owed) && t.held == s.held && t.paidIn == s.paidIn && t.log == s.log
    ensures Balanced(vault, t, owed)
  {
  }

  /** A transfer moves the balance and leaves the execution open for as much. */
  lemma MovingOpens(vault: Address, st: VaultState, a: Action, moved: int, owed: map<Address, int>)
    requires Balanced(vault, st, owed) && moved + Outflow(vault, a) == 0
    ensures Balanced(vault, st.(held := st.held[a.asset := At(st.held, a.asset) + moved]),
                     owed[a.asset := At(owed, a.asset) + Outflow(vault, a)])
  {
    hide PaidOut, Outflow;
  }

  /** Logging the execution closes it. */
  lemma LoggingCloses(vault: Address, st: VaultState, e: ActionExecuted, owed: map<Address, int>)
    requires Balanced(vault, st, owed[e.action.asset := At(owed, e.action.asset) + Outflow(vault, e.action)])
    ensures Balanced(vault, st.(log := st.log + [e]), owed)
  {
    hide PaidOut, Outflow;
    forall t: Address
      ensures At(st.held, t) == At(st.paidIn, t) - PaidOut(vault, st.log + [e], t) - At(owed, t)
    {
      LogPays(vault, st.log, e, t);
    }
  }

  lemma PayingInBalances(vault: Address, st: VaultState, t: Address, amount: nat, owed: map<Address, int>)
    requires Balanced(vault, st, owed)
    ensures Balanced(vault, st.(held := st.held[t := At(st.held, t) + amount],
                                paidIn := st.paidIn[t := At(st.paidIn, t) + amount]), owed)
  {
    hide PaidOut;
  }

  lemma {:induction false} RunKeepsBalance(c: CryptoSuite, vault: Address, st: VaultState, call: Call,
                                           owed: map<Address, int>)
    requires Balanced(vault, st, owed) && Conserving(vault, call)
    ensures Balanced(vault, Run(c, st, call).0, owed)
    decreases call, 0
  {
    hide Check, ActionDigest, Outflow, Balanced;
    match call {
      case Execute(owner, a, sig, token) =>
        if Check(c, st, owner, a, sig).Ok? && token.result == ReturnsTrue {
          var marked := st.(usedDigest := st.usedDigest + {ActionDigest(c, a)});
          SameLedger(vault, st, marked, owed);
          RunAllKeepsBalance(c, vault, marked, token.before, owed);
          var st1 := RunAll(c, marked, token.before);
          MovingOpens(vault, st1, a, token.moved, owed);
          var moved := st1.(held := st1.held[a.asset := At(st1.held, a.asset) + token.moved]);
          RunAllKeepsBalance(c, vault, moved, token.after, owed[a.asset := At(owed, a.asset) + Outflow(vault, a)]);
          var e := ActionExecuted(owner, a, Check(c, st, owner, a, sig).value.managedWallet);
          LoggingCloses(vault, RunAll(c, moved, token.after), e, owed);
        }
      case Group(calls, reverts) => RunAllKeepsBalance(c, vault, st, calls, owed);
      case PayIn(t, amount) => PayingInBalances(vault, st, t, amount, owed);
      case _ => SameLedger(vault, st, Run(c, st, call).0, owed);
    }
  }

  lemma {:induction false} RunAllKeepsBalance(c: CryptoSuite, vault: Address, st: VaultState,
                                              calls: seq<Call>, owed: map<Address, int>)
    requires Balanced(vault, st, owed) && AllConserving(vault, calls)
    ensures Balanced(vault, RunAll(c, st, calls), owed)
    decreases calls, 0
  {
    hide Balanced, Run;
    if calls != [] {
      RunKeepsBalance(c, vault, st, calls[0], owed);
      RunAllKeepsBalance(c, vault, Run(c, st, calls[0]).0, calls[1..], owed);
    }
  }

  /** With tokens that conserve value, what left the vault is what was executed to other addresses. */
  lemma OutflowIsWhatWasExecuted(c: CryptoSuite, vault: Address, transactions: seq<Call>, token: Address)
    requires AllConserving(vault, transactions)
    ensures var st := RunAll(c, EMPTY, transactions);
      At(st.held, token) == At(st.paidIn, token) - PaidOut(vault, st.log, token)
  {
    RunAllKeepsBalance(c, vault, EMPTY, transactions, map[]);
    hide RunAll;
  }

  // ---- whose signatures were executed ---------------------------------------------------------

  /** A (wallet, digest) pair that was signed with the wallet's key. */
  type Signatures = set<(Address, Word32)>

  /** No signature presented in the call tree recovers to a wallet of W on a digest that the wallet did not sign. */
  ghost predicate Honest(c: CryptoSuite, wallets: iset<Address>, signed: Signatures, call: Call)
    decreases call, 0
  {
    match call
    case Execute(_, a, sig, token) =>
      && (Recover(c, ActionDigest(c, a), sig) in wallets ==>
            (Recover(c, ActionDigest(c, a), sig), ActionDigest(c, a)) in signed)
      && AllHonest(c, wallets, signed, token.before) && AllHonest(c, wallets, signed, token.after)
    case Group(calls, _) => AllHonest(c, wallets, signed, calls)
    case _ => true
  }

  ghost predicate AllHonest(c: CryptoSuite, wallets: iset<Address>, signed: Signatures, calls: seq<Call>)
    decreases calls, 0
  {
    calls != [] ==> Honest(c, wallets, signed, calls[0]) && AllHonest(c, wallets, signed, calls[1..])
  }

  /** Every execution under a wallet of W was signed with its key. */
  ghost predicate Backed(c: CryptoSuite, wallets: iset<Address>, signed: Signatures, log: seq<ActionExecuted>) {
    forall e :: e in log && e.signer in wallets ==> (e.signer, ActionDigest(c, e.action)) in signed
  }

  lemma {:induction false} RunKeepsBacked(c: CryptoSuite, wallets: iset<Address>, signed: Signatures,
                                          st: VaultState, call: Call)
    requires Backed(c, wallets, signed, st.log) && Honest(c, wallets, signed, call)
    ensures Backed(c, wallets, signed, Run(c, st, call).0.log)
    decreases call, 0
  {
    hide ActionDigest, Recover, CheckDestination;
    match call {
      case Execute(owner, a, sig, token) =>
        if Check(c, st, owner, a, sig).Ok? {
          var marked := st.(usedDigest := st.usedDigest + {ActionDigest(c, a)});
          RunAllKeepsBacked(c, wallets, signed, marked, token.before);
          var st1 := RunAll(c, marked, token.before);
          var moved := st1.(held := st1.held[a.asset := At(st1.held, a.asset) + token.moved]);
          RunAllKeepsBacked(c, wallets, signed, moved, token.after);
        }
      case Group(calls, reverts) => RunAllKeepsBacked(c, wallets, signed, st, calls);
      case _ =>
    }
  }

  lemma {:induction false} RunAllKeepsBacked(c: CryptoSuite, wallets: iset<Address>, signed: Signatures,
                                             st: VaultState, calls: seq<Call>)
    requires Backed(c, wallets, signed, st.log) && AllHonest(c, wallets, signed, calls)
    ensures Backed(c, wallets, signed, RunAll(c, st, calls).log)
    decreases calls, 0
  {
    hide Backed, Run;
    if calls != [] {
      RunKeepsBacked(c, wallets, signed, st, calls[0]);
      RunAllKeepsBacked(c, wallets, signed, Run(c, st, calls[0]).0, calls[1..]);
    }
  }

  // ---- the log and the used digests only grow ----------------------------------------------------------------------

  lemma {:induction false} RunKeepsLog(c: CryptoSuite, st: VaultState, call: Call)
    ensures st.log <= Run(c, st, call).0.log && st.usedDigest <= Run(c, st, call).0.usedDigest
    decreases call, 0
  {
    hide Check;
    match call {
      case Execute(owner, a, sig, token) =>
        if Check(c, st, owner, a, sig).Ok? {
          var marked := st.(usedDigest := st.usedDigest + {ActionDigest(c, a)});
          RunAllKeepsLog(c, marked, token.before);
          var st1 := RunAll(c, marked, token.before);
          RunAllKeepsLog(c, st1.(held := st1.held[a.asset := At(st1.held, a.asset) + token.moved]), token.after);
        }
      case Group(calls, reverts) => RunAllKeepsLog(c, st, calls);
      case _ =>
    }
  }

  lemma {:induction false} RunAllKeepsLog(c: CryptoSuite, st: VaultState, calls: seq<Call>)
    ensures st.log <= RunAll(c, st, calls).log && st.usedDigest <= RunAll(c, st, calls).usedDigest
    decreases calls, 0
  {
    hide Run;
    if calls != [] {
      RunKeepsLog(c, st, calls[0]);
      RunAllKeepsLog(c, Run(c, st, calls[0]).0, calls[1..]);
    }
  }

  // ---- preview ------------------------------------------------------------------------------------

  /** No account has a zero address in it. */
  ghost predicate AccountsNonZero(st: VaultState) {
    forall o :: o in st.accounts ==>
      && st.accounts[o].managedWallet != ZERO_ADDRESS
      && st.accounts[o].returnAddress != ZERO_ADDRESS && st.accounts[o].asset != ZERO_ADDRESS
  }

  lemma {:induction false} RunKeepsNonZero(c: CryptoSuite, st: VaultState, call: Call)
    requires AccountsNonZero(st)
    ensures AccountsNonZero(Run(c, st, call).0)
    decreases call, 0
  {
    hide Check;
    match call {
      case Execute(owner, a, sig, token) =>
        if Check(c, st, owner, a, sig).Ok? {
          var marked := st.(usedDigest := st.usedDigest + {ActionDigest(c, a)});
          RunAllKeepsNonZero(c, marked, token.before);
          var st1 := RunAll(c, marked, token.before);
          RunAllKeepsNonZero(c, st1.(held := st1.held[a.asset := At(st1.held, a.asset) + token.moved]), token.after);
        }
      case Group(calls, reverts) => RunAllKeepsNonZero(c, st, calls);
      case _ =>
    }
  }

  lemma {:induction false} RunAllKeepsNonZero(c: CryptoSuite, st: VaultState, calls: seq<Call>)
    requires AccountsNonZero(st)
    ensures AccountsNonZero(RunAll(c, st, calls))
    decreases calls, 0
  {
    hide AccountsNonZero, Run;
    if calls != [] {
      RunKeepsNonZero(c, st, calls[0]);
      RunAllKeepsNonZero(c, Run(c, st, calls[0]).0, calls[1..]);
    }
  }

  /**
   In every state: the preview is good and the digest unused if and only if execute gets to the transfer; otherwise
   execute reverts on the check the preview names, or on Replay, which the preview does not look at.
   */
  lemma PreviewAgreesWithExecute(c: CryptoSuite, st: VaultState, owner: Address, a: Action, sig: bytes)
    ensures var p, checked := PreviewOf(c, st, owner, a, sig), Check(c, st, owner, a, sig);
      && (checked.Ok? <==> p.ok && ActionDigest(c, a) !in st.usedDigest)
      && (checked.Err? && checked.error != Replay ==> !p.ok && p.reason == ReasonOf(checked.error))
      && (checked.Err? && checked.error == Replay ==> p.reason in {"ok", "signer mismatch"})
      && (p.ok <==> p.reason == "ok")
  {
    hide ActionDigest, Recover;
  }

  /** In every reachable state a signature of the wrong length, or one that fails to recover, is accepted by neither. */
  lemma FailedRecoveryIsNeverAccepted(c: CryptoSuite, transactions: seq<Call>, owner: Address, a: Action, sig: bytes)
    requires |sig| != 65 || Recover(c, ActionDigest(c, a), sig) == ZERO_ADDRESS
    ensures var st := RunAll(c, EMPTY, transactions);
      !PreviewOf(c, st, owner, a, sig).ok && Check(c, st, owner, a, sig).Err?
  {
    hide RunAll, ActionDigest;
    RunAllKeepsNonZero(c, EMPTY, transactions);
  }
}
