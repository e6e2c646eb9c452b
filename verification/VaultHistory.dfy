/**
 The contract told by the calls alone. What takes effect is a history that is computed without the storage; the storage
 is what that history says last. Each answer of execute and previewExecute has its exact condition.
 */
module VaultHistory {
  import opened Common
  import opened Crypto
  import opened Vault

  // ---- the answers, condition by condition ------------------------------------------------------------

  /** The kind's own destination rule: an allowed venue for kinds 1 and 2, the return address for kind 3. */
  predicate Permitted(account: Account, allowed: bool, a: Action) {
    (a.kind in {1, 2} && allowed) || (a.kind == 3 && a.dest == account.returnAddress)
  }

  /** The flag stored for the owner and the venue, false until it is set. */
  predicate Flag(st: VaultState, owner: Address, venue: Address) {
    st.allowedVenue.Keys >= {(owner, venue)} && st.allowedVenue[(owner, venue)]
  }

  /** execute answers, and preview says, exactly which requirement is the first to fail, or that none does. */
  lemma ExecuteAnswersExactly(c: CryptoSuite, st: VaultState, owner: Address, a: Action, sig: bytes, token: TokenRun)
    ensures var r := Run(c, st, Execute(owner, a, sig, token)).1;
      var p := PreviewOf(c, st, owner, a, sig);
      if owner !in st.accounts then r == Some(NoAccount) && p == Preview(false, ZERO_ADDRESS, "no account")
      else
        var account := st.accounts[owner];
        var recovered := Recover(c, ActionDigest(c, a), sig);
        if a.asset != account.asset then r == Some(WrongAsset) && p == Preview(false, ZERO_ADDRESS, "wrong asset")
        else if a.kind !in {1, 2, 3} then r == Some(BadKind) && p == Preview(false, ZERO_ADDRESS, "bad kind")
        else if !Permitted(account, Flag(st, owner, a.dest), a) then
          if a.kind == 3 then
            r == Some(NotReturnAddress) && p == Preview(false, ZERO_ADDRESS, "not return address")
          else r == Some(VenueNotAllowed) && p == Preview(false, ZERO_ADDRESS, "venue not allowed")
        else
          && (recovered == account.managedWallet ==> p == Preview(true, recovered, "ok"))
          && (recovered != account.managedWallet ==> p == Preview(false, recovered, "signer mismatch"))
          && (if ActionDigest(c, a) in st.usedDigest then r == Some(Replay)
              else if recovered != account.managedWallet then r == Some(BadSigner)
              else r == match token.result
                        case ReturnsTrue => None
                        case ReturnsFalse => Some(TransferFailed)
                        case Reverts => Some(CallReverted))
  {
    hide ActionDigest, Recover, RunAll;
  }

  // ---- the history -------------------------------------------------------------------------------------------

  /** What took effect, in the order in which it began: an execution is entered before its token calls back. */
  datatype Effect =
    | DidRegister(owner: Address, account: Account)
    | DidSetVenue(owner: Address, venue: Address, allowed: bool)
    | DidEnter(x: ActionExecuted)

  type History = seq<Effect>

  /** The account that the owner registered last. */
  function LastAccount(h: History, owner: Address): Option<Account> {
    if h == [] then None
    else
      var last := h[|h| - 1];
      if last.DidRegister? && last.owner == owner then Some(last.account) else LastAccount(h[..|h| - 1], owner)
  }

  predicate Sets(e: Effect, owner: Address, venue: Address) {
    e.DidSetVenue? && e.owner == owner && e.venue == venue
  }

  /** What the owner last said of the venue; nothing said means not allowed. */
  predicate LastAllows(h: History, owner: Address, venue: Address) {
    h != [] &&
    var last := h[|h| - 1];
    if Sets(last, owner, venue) then last.allowed else LastAllows(h[..|h| - 1], owner, venue)
  }

  predicate Entered(c: CryptoSuite, h: History, d: Word32) {
    exists i :: 0 <= i < |h| && h[i].DidEnter? && ActionDigest(c, h[i].x.action) == d
  }

  /** What execute asks of the history it is entered in. */
  predicate Justified(c: CryptoSuite, h: History, x: ActionExecuted, sig: bytes) {
    var account := LastAccount(h, x.owner);
    && account.Some? && x.action.asset == account.value.asset
    && Permitted(account.value, LastAllows(h, x.owner, x.action.dest), x.action)
    && !Entered(c, h, ActionDigest(c, x.action))
    && Recover(c, ActionDigest(c, x.action), sig) == account.value.managedWallet == x.signer
  }

  /** What the call adds to the history. */
  function Effects(c: CryptoSuite, h: History, call: Call): History
    decreases call, 0
  {
    match call
    case RegisterAccount(sender, wallet, returnAddress, asset) =>
      if ZERO_ADDRESS in {wallet, returnAddress, asset} then []
      else [DidRegister(sender, Account(wallet, returnAddress, asset))]
    case SetVenue(sender, venue, allowed) =>
      if LastAccount(h, sender) == None then [] else [DidSetVenue(sender, venue, allowed)]
    case Execute(owner, a, sig, token) =>
      var account := LastAccount(h, owner);
      if account == None || token.result != ReturnsTrue then []
      else
        var x := ActionExecuted(owner, a, account.value.managedWallet);
        if !Justified(c, h, x, sig) then []
        else
          var before := AllEffects(c, h + [DidEnter(x)], token.before);
          [DidEnter(x)] + before + AllEffects(c, h + [DidEnter(x)] + before, token.after)
    case PayIn(_, _) => []
    case Group(calls, reverts) => if reverts then [] else AllEffects(c, h, calls)
  }

  function AllEffects(c: CryptoSuite, h: History, calls: seq<Call>): History
    decreases calls, 0
  {
    if calls == [] then []
    else
      var first := Effects(c, h, calls[0]);
      first + AllEffects(c, h + first, calls[1..])
  }

  // ---- the storage is what the history says last -----------------------------------------------------------

  ghost predicate Tells(c: CryptoSuite, h: History, st: VaultState) {
    && (forall o :: LastAccount(h, o) == if o in st.accounts then Some(st.accounts[o]) else None)
    && (forall o, v :: LastAllows(h, o, v) <==> Flag(st, o, v))
    && (forall d :: Entered(c, h, d) <==> d in st.usedDigest)
  }

  /** The log holds the executions that were entered, but for those still open. */
  ghost predicate Logs(h: History, st: VaultState, open: iset<ActionExecuted>) {
    && (forall x :: x in st.log ==> DidEnter(x) in h)
    && (forall x :: DidEnter(x) in h && x !in open ==> x in st.log)
  }

  lemma EffectIsLast(c: CryptoSuite, h: History, e: Effect)
    ensures forall o ::
      LastAccount(h + [e], o) == if e.DidRegister? && e.owner == o then Some(e.account) else LastAccount(h, o)
    ensures forall o, v :: LastAllows(h + [e], o, v) <==> if Sets(e, o, v) then e.allowed else LastAllows(h, o, v)
    ensures forall d ::
      Entered(c, h + [e], d) <==> Entered(c, h, d) || (e.DidEnter? && ActionDigest(c, e.x.action) == d)
  {
    hide ActionDigest;
    var more := h + [e];
    assert more[..|h|] == h && more[|h|] == e;
    forall d
      ensures Entered(c, more, d) <==> Entered(c, h, d) || (e.DidEnter? && ActionDigest(c, e.x.action) == d)
    {
      if i :| 0 <= i < |h| && h[i].DidEnter? && ActionDigest(c, h[i].x.action) == d {
        assert more[i] == h[i];
      }
    }
  }

  /** The storage's own checks pass exactly if the history justifies the execution. */
  lemma ChecksAreHistory(c: CryptoSuite, h: History, st: VaultState, owner: Address, a: Action, sig: bytes)
    requires Tells(c, h, st)
    ensures var account := LastAccount(h, owner);
      var checked := Check(c, st, owner, a, sig);
      && (account.Some? && Justified(c, h, ActionExecuted(owner, a, account.value.managedWallet), sig) <==> checked.Ok?)
      && (checked.Ok? ==> account == Some(checked.value))
  {
    hide ActionDigest, Recover, LastAccount, LastAllows, Entered;
  }

  lemma RegisteringTells(c: CryptoSuite, h: History, st: VaultState, o: Address, a: Account)
    requires Tells(c, h, st)
    ensures Tells(c, h + [DidRegister(o, a)], st.(accounts := st.accounts[o := a]))
  {
    EffectIsLast(c, h, DidRegister(o, a));
    hide LastAccount, LastAllows, Entered, ActionDigest;
  }

  lemma SettingTells(c: CryptoSuite, h: History, st: VaultState, o: Address, v: Address, allowed: bool)
    requires Tells(c, h, st)
    ensures Tells(c, h + [DidSetVenue(o, v, allowed)], st.(allowedVenue := st.allowedVenue[(o, v) := allowed]))
  {
    EffectIsLast(c, h, DidSetVenue(o, v, allowed));
    hide LastAccount, LastAllows, Entered, ActionDigest;
  }

  lemma MarkingTells(c: CryptoSuite, h: History, st: VaultState, x: ActionExecuted)
    requires Tells(c, h, st)
    ensures Tells(c, h + [DidEnter(x)], st.(usedDigest := st.usedDigest + {ActionDigest(c, x.action)}))
  {
    EffectIsLast(c, h, DidEnter(x));
    hide LastAccount, LastAllows, Entered, ActionDigest;
  }

  /** Only these three parts of the storage are told. */
  lemma LedgerIsNotTold(c: CryptoSuite, h: History, s: VaultState, t: VaultState)
    requires Tells(c, h, s)
    requires t.accounts == s.accounts && t.allowedVenue == s.allowedVenue && t.usedDigest == s.usedDigest
    ensures Tells(c, h, t)
  {
    hide LastAccount, LastAllows, Entered;
  }

  lemma {:induction false} RunIsTold(c: CryptoSuite, h: History, st: VaultState, call: Call, open: iset<ActionExecuted>)
    requires Tells(c, h, st) && Logs(h, st, open)
    ensures Tells(c, h + Effects(c, h, call), Run(c, st, call).0)
    ensures Logs(h + Effects(c, h, call), Run(c, st, call).0, open)
    decreases call, 0
  {
    hide Check, ActionDigest, Tells, Logs, Justified, LastAccount;
    assert h + [] == h;
    match call {
      case RegisterAccount(sender, wallet, returnAddress, asset) =>
        RegisteringTells(c, h, st, sender, Account(wallet, returnAddress, asset));
        OtherEffectLogs(h, st, open, DidRegister(sender, Account(wallet, returnAddress, asset)), Run(c, st, call).0);
      case SetVenue(sender, venue, allowed) =>
        AccountIsTold(c, h, st, sender);
        SettingTells(c, h, st, sender, venue, allowed);
        OtherEffectLogs(h, st, open, DidSetVenue(sender, venue, allowed), Run(c, st, call).0);
      case Execute(owner, a, sig, token) =>
        ChecksAreHistory(c, h, st, owner, a, sig);
        if Check(c, st, owner, a, sig).Ok? && token.result == ReturnsTrue {
          ExecutionIsTold(c, h, st, owner, a, sig, token, open);
        }
      case PayIn(_, _) =>
        LedgerIsNotTold(c, h, st, Run(c, st, call).0);
        SameLog(h, st, open, Run(c, st, call).0);
      case Group(calls, reverts) =>
        if !reverts {
          RunAllIsTold(c, h, st, calls, open);
        }
    }
  }

  lemma AccountIsTold(c: CryptoSuite, h: History, st: VaultState, o: Address)
    requires Tells(c, h, st)
    ensures LastAccount(h, o) == None <==> o !in st.accounts
  {
    hide LastAllows, Entered;
  }

  lemma SameLog(h: History, s: VaultState, open: iset<ActionExecuted>, t: VaultState)
    requires Logs(h, s, open) && t.log == s.log
    ensures Logs(h, t, open)
  {
  }

  lemma OtherEffectLogs(h: History, s: VaultState, open: iset<ActionExecuted>, e: Effect, t: VaultState)
    requires Logs(h, s, open) && !e.DidEnter? && t.log == s.log
    ensures Logs(h + [e], t, open)
  {
  }

  /** Entering leaves an execution open, and logging closes it. */
  lemma EnteringLogs(h: History, s: VaultState, open: iset<ActionExecuted>, x: ActionExecuted, t: VaultState)
    requires Logs(h, s, open) && t.log == s.log
    ensures Logs(h + [DidEnter(x)], t, open + iset{x})
  {
  }

  lemma ClosingLogs(h: History, s: VaultState, open: iset<ActionExecuted>, x: ActionExecuted)
    requires Logs(h, s, open + iset{x}) && DidEnter(x) in h
    ensures Logs(h, s.(log := s.log + [x]), open)
  {
  }

  lemma {:induction false} ExecutionIsTold(c: CryptoSuite, h: History, st: VaultState, owner: Address, a: Action,
                                           sig: bytes, token: TokenRun, open: iset<ActionExecuted>)
    requires Tells(c, h, st) && Logs(h, st, open)
    requires Check(c, st, owner, a, sig).Ok? && token.result == ReturnsTrue
    ensures var call := Execute(owner, a, sig, token);
      && Tells(c, h + Effects(c, h, call), Run(c, st, call).0)
      && Logs(h + Effects(c, h, call), Run(c, st, call).0, open)
    decreases token, 1
  {
    hide Check, ActionDigest, Tells, Logs, Justified, LastAccount;
    ChecksAreHistory(c, h, st, owner, a, sig);
    var x := ActionExecuted(owner, a, Check(c, st, owner, a, sig).value.managedWallet);
    var marked := st.(usedDigest := st.usedDigest + {ActionDigest(c, a)});
    var h1 := h + [DidEnter(x)];
    MarkingTells(c, h, st, x);
    EnteringLogs(h, st, open, x, marked);
    RunAllIsTold(c, h1, marked, token.before, open + iset{x});
    var before := AllEffects(c, h1, token.before);
    var st1 := RunAll(c, marked, token.before);
    var moved := st1.(held := st1.held[a.asset := At(st1.held, a.asset) + token.moved]);
    LedgerIsNotTold(c, h1 + before, st1, moved);
    SameLog(h1 + before, st1, open + iset{x}, moved);
    RunAllIsTold(c, h1 + before, moved, token.after, open + iset{x});
    var after := AllEffects(c, h1 + before, token.after);
    var st2 := RunAll(c, moved, token.after);
    assert h1 + before + after == h + ([DidEnter(x)] + before + after);
    LedgerIsNotTold(c, h1 + before + after, st2, st2.(log := st2.log + [x]));
    assert (h1 + before + after)[|h|] == DidEnter(x);
    ClosingLogs(h1 + before + after, st2, open, x);
  }

  lemma {:induction false} RunAllIsTold(c: CryptoSuite, h: History, st: VaultState, calls: seq<Call>,
                                        open: iset<ActionExecuted>)
    requires Tells(c, h, st) && Logs(h, st, open)
    ensures Tells(c, h + AllEffects(c, h, calls), RunAll(c, st, calls))
    ensures Logs(h + AllEffects(c, h, calls), RunAll(c, st, calls), open)
    decreases calls, 0
  {
    hide Tells, Logs, Run, Effects;
    if calls == [] {
      assert h + [] == h;
    } else {
      var first := Effects(c, h, calls[0]);
      RunIsTold(c, h, st, calls[0], open);
      RunAllIsTold(c, h + first, Run(c, st, calls[0]).0, calls[1..], open);
      assert h + (first + AllEffects(c, h + first, calls[1..])) == h + first + AllEffects(c, h + first, calls[1..]);
    }
  }

  // ---- every execution was justified when it was entered --------------------------------------------------------

  ghost predicate AllJustified(c: CryptoSuite, h: History, more: History) {
    forall i :: 0 <= i < |more| && more[i].DidEnter? ==> exists sig :: Justified(c, h + more[..i], more[i].x, sig)
  }

  lemma JustifiedJoins(c: CryptoSuite, h: History, a: History, b: History)
    requires AllJustified(c, h, a) && AllJustified(c, h + a, b)
    ensures AllJustified(c, h, a + b)
  {
    hide Justified;
    forall i | 0 <= i < |a + b| && (a + b)[i].DidEnter?
      ensures exists sig :: Justified(c, h + (a + b)[..i], (a + b)[i].x, sig)
    {
      if i < |a| {
        assert (a + b)[..i] == a[..i] && (a + b)[i] == a[i];
      } else {
        assert h + (a + b)[..i] == h + a + b[..i - |a|] && (a + b)[i] == b[i - |a|];
      }
    }
  }

  lemma {:induction false} EffectsAreJustified(c: CryptoSuite, h: History, call: Call)
    ensures AllJustified(c, h, Effects(c, h, call))
    decreases call, 0
  {
    hide Justified, AllJustified, LastAccount;
    match call {
      case Execute(owner, a, sig, token) =>
        if Effects(c, h, call) != [] {
          var x := ActionExecuted(owner, a, LastAccount(h, owner).value.managedWallet);
          assert Justified(c, h, x, sig);
          EntryIsJustified(c, h, x, sig);
          var h1 := h + [DidEnter(x)];
          AllEffectsAreJustified(c, h1, token.before);
          var before := AllEffects(c, h1, token.before);
          AllEffectsAreJustified(c, h1 + before, token.after);
          JustifiedJoins(c, h, [DidEnter(x)], before);
          assert h + ([DidEnter(x)] + before) == h1 + before;
          JustifiedJoins(c, h, [DidEnter(x)] + before, AllEffects(c, h1 + before, token.after));
        } else {
          NothingToJustify(c, h, []);
        }
      case Group(calls, reverts) =>
        AllEffectsAreJustified(c, h, calls);
        NothingToJustify(c, h, []);
      case _ => NothingToJustify(c, h, Effects(c, h, call));
    }
  }

  lemma EntryIsJustified(c: CryptoSuite, h: History, x: ActionExecuted, sig: bytes)
    requires Justified(c, h, x, sig)
    ensures AllJustified(c, h, [DidEnter(x)])
  {
    hide Justified;
    assert h + [DidEnter(x)][..0] == h;
  }

  lemma NothingToJustify(c: CryptoSuite, h: History, more: History)
    requires forall e :: e in more ==> !e.DidEnter?
    ensures AllJustified(c, h, more)
  {
    hide Justified;
  }

  lemma {:induction false} AllEffectsAreJustified(c: CryptoSuite, h: History, calls: seq<Call>)
    ensures AllJustified(c, h, AllEffects(c, h, calls))
    decreases calls, 0
  {
    hide AllJustified, Effects;
    if calls == [] {
      NothingToJustify(c, h, []);
    } else {
      var first := Effects(c, h, calls[0]);
      EffectsAreJustified(c, h, calls[0]);
      AllEffectsAreJustified(c, h + first, calls[1..]);
      JustifiedJoins(c, h, first, AllEffects(c, h + first, calls[1..]));
    }
  }

  lemma NothingIsTold(c: CryptoSuite)
    ensures Tells(c, [], EMPTY) && Logs([], EMPTY, iset{})
  {
  }

  /** An allowed venue, read off the history: the owner's last word on it was true. */
  lemma {:induction false} LastWord(h: History, owner: Address, venue: Address)
    ensures LastAllows(h, owner, venue) <==>
      exists j :: 0 <= j < |h| && h[j] == DidSetVenue(owner, venue, true)
                  && forall k :: j < k < |h| ==> !Sets(h[k], owner, venue)
  {
    if h != [] {
      var n := |h| - 1;
      LastWord(h[..n], owner, venue);
      if Sets(h[n], owner, venue) {
        if h[n].allowed {
          assert h[n] == DidSetVenue(owner, venue, true);
        }
      } else if j :| 0 <= j < n && h[..n][j] == DidSetVenue(owner, venue, true)
                     && forall k :: j < k < n ==> !Sets(h[..n][k], owner, venue) {
        assert h[j] == DidSetVenue(owner, venue, true);
        forall k | j < k < |h|
          ensures !Sets(h[k], owner, venue)
        {
          assert k < n ==> h[k] == h[..n][k];
        }
      }
    }
  }

  /**
   In every run, whatever its tokens call back: the log holds exactly the executions that the calls entered, each was
   justified by the calls before it, and the storage is what the calls said last.
   */
  lemma RunsAreHistory(c: CryptoSuite, transactions: seq<Call>)
    ensures var h, st := AllEffects(c, [], transactions), RunAll(c, EMPTY, transactions);
      && Tells(c, h, st)
      && (forall x :: x in st.log <==> DidEnter(x) in h)
      && forall i :: 0 <= i < |h| && h[i].DidEnter? ==> exists sig :: Justified(c, h[..i], h[i].x, sig)
  {
    hide RunAll, AllEffects, Justified, Tells;
    NothingIsTold(c);
    RunAllIsTold(c, [], EMPTY, transactions, iset{});
    AllEffectsAreJustified(c, [], transactions);
    var h := AllEffects(c, [], transactions);
    assert [] + h == h;
    forall i | 0 <= i < |h| && h[i].DidEnter?
      ensures exists sig :: Justified(c, h[..i], h[i].x, sig)
    {
      assert [] + h[..i] == h[..i];
    }
  }

  /**
   Whatever was executed for a venue kind: before it was entered, the owner had set this venue to true and not said
   anything else of it since.
   */
  lemma PaidVenuesWereAllowed(c: CryptoSuite, transactions: seq<Call>, x: ActionExecuted)
    requires x in RunAll(c, EMPTY, transactions).log && x.action.kind != 3
    ensures x.action.kind in {1, 2}
    ensures var h := AllEffects(c, [], transactions);
      exists j, i :: 0 <= j < i < |h| && h[i] == DidEnter(x) && h[j] == DidSetVenue(x.owner, x.action.dest, true)
                     && forall k :: j < k < i ==> !Sets(h[k], x.owner, x.action.dest)
  {
    hide RunAll, AllEffects, ActionDigest, Recover, Entered, LastAccount, LastAllows, Tells;
    RunsAreHistory(c, transactions);
    var h := AllEffects(c, [], transactions);
    var i :| 0 <= i < |h| && h[i] == DidEnter(x);
    var sig :| Justified(c, h[..i], x, sig);
    LastWord(h[..i], x.owner, x.action.dest);
    var j :| 0 <= j < i && h[..i][j] == DidSetVenue(x.owner, x.action.dest, true)
             && forall k :: j < k < i ==> !Sets(h[..i][k], x.owner, x.action.dest);
    assert h[j] == h[..i][j];
    forall k | j < k < i
      ensures !Sets(h[k], x.owner, x.action.dest)
    {
      assert h[k] == h[..i][k];
    }
  }
}
