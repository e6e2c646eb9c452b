/**
 Model of extension/contracts/MindorrVault.sol. A transaction is a tree of calls: while execute waits for the token's
 transfer, the token may call the vault back, and any call that reverts takes its effects with it. The functions give
 the meaning of such a tree; the class updates the contract's storage in place and is proved to mean the same.
 */
module Vault {
  import opened Common
  import opened Crypto
  import A = Abi

  const KIND_ALLOCATE: byte := 1
  const KIND_REBALANCE: byte := 2
  const KIND_WITHDRAW: byte := 3

  /** An action whose amount is a uint256, as every calldata amount is. */
  type Action = a: A.Action | a.Fits() witness A.Action(0, ZERO_ADDRESS, 0, ZERO_ADDRESS)

  /** An account that exists. */
  datatype Account = Account(managedWallet: Address, returnAddress: Address, asset: Address)

  datatype ActionExecuted = ActionExecuted(owner: Address, action: Action, signer: Address)

  datatype VaultError =
    | ZeroAddress
    | NoAccount
    | WrongAsset
    | VenueNotAllowed
    | NotReturnAddress
    | BadKind
    | Replay
    | BadSigner
    | TransferFailed
    | CallReverted

  /**
   The contract's storage and log, and the token's view of the vault: what each token has of it, and what was ever
   paid in from outside.
   */
  datatype VaultState = VaultState(
    accounts: map<Address, Account>,
    allowedVenue: map<(Address, Address), bool>,
    usedDigest: set<Word32>,
    log: seq<ActionExecuted>,
    held: map<Address, int>,
    paidIn: map<Address, int>)

  /** How a token's transfer comes back. */
  datatype TokenResult = ReturnsTrue | ReturnsFalse | Reverts

  /** One run of a token's transfer: calls it makes before and after moving the vault's balance, and its result. */
  datatype TokenRun = TokenRun(before: seq<Call>, moved: int, after: seq<Call>, result: TokenResult)

  /** Group is a frame of some other contract: its failed calls are swallowed, or it reverts as a whole. */
  datatype Call =
    | RegisterAccount(sender: Address, managedWallet: Address, returnAddress: Address, asset: Address)
    | SetVenue(sender: Address, venue: Address, allowed: bool)
    | Execute(owner: Address, action: Action, signature: bytes, token: TokenRun)
    | PayIn(paidToken: Address, amount: nat)
    | Group(calls: seq<Call>, reverts: bool)

  function ActionDigest(c: CryptoSuite, a: Action): Word32 {
    c.keccak(A.AbiEncode(a))
  }

  predicate IsAllowed(st: VaultState, owner: Address, venue: Address) {
    (owner, venue) in st.allowedVenue && st.allowedVenue[(owner, venue)]
  }

  /** The destination half of the guard, shared by execute and previewExecute. */
  function CheckDestination(st: VaultState, owner: Address, a: Action): Result<Account, VaultError> {
    if owner !in st.accounts then Err(NoAccount)
    else
      var account := st.accounts[owner];
      if a.asset != account.asset then Err(WrongAsset)
      else if a.kind == KIND_ALLOCATE || a.kind == KIND_REBALANCE then
        if !IsAllowed(st, owner, a.dest) then Err(VenueNotAllowed) else Ok(account)
      else if a.kind == KIND_WITHDRAW then
        if a.dest != account.returnAddress then Err(NotReturnAddress) else Ok(account)
      else Err(BadKind)
  }

  /** Every check execute makes before it marks the digest and transfers. */
  function Check(c: CryptoSuite, st: VaultState, owner: Address, a: Action, sig: bytes): Result<Account, VaultError> {
    var account :- CheckDestination(st, owner, a);
    var d := ActionDigest(c, a);
    if d in st.usedDigest then Err(Replay)
    else if Recover(c, d, sig) != account.managedWallet then Err(BadSigner)
    else Ok(account)
  }

  function At(m: map<Address, int>, token: Address): int {
    if token in m then m[token] else 0
  }

  function Run(c: CryptoSuite, st: VaultState, call: Call): (r: (VaultState, Option<VaultError>))
    ensures r.1.Some? ==> r.0 == st
    decreases call, 0
  {
    match call
    case RegisterAccount(sender, managedWallet, returnAddress, asset) =>
      if managedWallet == ZERO_ADDRESS || returnAddress == ZERO_ADDRESS || asset == ZERO_ADDRESS then
        (st, Some(ZeroAddress))
      else (st.(accounts := st.accounts[sender := Account(managedWallet, returnAddress, asset)]), None)
    case SetVenue(sender, venue, allowed) =>
      if sender !in st.accounts then (st, Some(NoAccount))
      else (st.(allowedVenue := st.allowedVenue[(sender, venue) := allowed]), None)
    case Execute(owner, a, sig, token) =>
      var checked := Check(c, st, owner, a, sig);
      if checked.Err? then (st, Some(checked.error))
      else
        var marked := st.(usedDigest := st.usedDigest + {ActionDigest(c, a)});
        var st1 := RunAll(c, marked, token.before);
        var moved := st1.(held := st1.held[a.asset := At(st1.held, a.asset) + token.moved]);
        var st2 := RunAll(c, moved, token.after);
        (match token.result
         case ReturnsTrue => (st2.(log := st2.log + [ActionExecuted(owner, a, checked.value.managedWallet)]), None)
         case ReturnsFalse => (st, Some(TransferFailed))
         case Reverts => (st, Some(CallReverted)))
    case PayIn(token, amount) =>
      (st.(held := st.held[token := At(st.held, token) + amount],
           paidIn := st.paidIn[token := At(st.paidIn, token) + amount]), None)
    case Group(calls, reverts) =>
      if reverts then (st, Some(CallReverted)) else (RunAll(c, st, calls), None)
  }

  /** Calls made one after the other by a caller that goes on whether or not they revert. */
  function RunAll(c: CryptoSuite, st: VaultState, calls: seq<Call>): VaultState
    decreases calls, 0
  {
    if calls == [] then st else RunAll(c, Run(c, st, calls[0]).0, calls[1..])
  }

  const EMPTY := VaultState(map[], map[], {}, [], map[], map[])

  /** What previewExecute answers. */
  datatype Preview = Preview(ok: bool, recovered: Address, reason: string)

  function PreviewOf(c: CryptoSuite, st: VaultState, owner: Address, a: Action, sig: bytes): Preview {
    var checked := CheckDestination(st, owner, a);
    if checked.Err? then Preview(false, ZERO_ADDRESS, ReasonOf(checked.error))
    else
      var recovered := Recover(c, ActionDigest(c, a), sig);
      var ok := recovered == checked.value.managedWallet;
      Preview(ok, recovered, if ok then "ok" else "signer mismatch")
  }

  function ReasonOf(e: VaultError): string {
    match e
    case NoAccount => "no account"
    case WrongAsset => "wrong asset"
    case VenueNotAllowed => "venue not allowed"
    case NotReturnAddress => "not return address"
    case BadKind => "bad kind"
    case _ => "signer mismatch"
  }

  // ---- the contract, updated in place ---------------------------------------------------

  class MindorrVault {
    const c: CryptoSuite
    var accounts: map<Address, Account>
    var allowedVenue: map<(Address, Address), bool>
    var usedDigest: set<Word32>
    var log: seq<ActionExecuted>
    var held: map<Address, int>
    var paidIn: map<Address, int>

    constructor (c: CryptoSuite)
      ensures this.c == c && State() == EMPTY
    {
      this.c := c;
      accounts, allowedVenue, usedDigest, log, held, paidIn := map[], map[], {}, [], map[], map[];
    }

    function State(): VaultState
      reads this
    {
      VaultState(accounts, allowedVenue, usedDigest, log, held, paidIn)
    }

    method RestoreTo(st: VaultState)
      modifies this
      ensures State() == st
    {
      accounts, allowedVenue, usedDigest := st.accounts, st.allowedVenue, st.usedDigest;
      log, held, paidIn := st.log, st.held, st.paidIn;
    }

    method Register(sender: Address, managedWallet: Address, returnAddress: Address, asset: Address)
      returns (r: Option<VaultError>)
      modifies this`accounts
      ensures (State(), r) == Run(c, old(State()), RegisterAccount(sender, managedWallet, returnAddress, asset))
    {
      if managedWallet == ZERO_ADDRESS || returnAddress == ZERO_ADDRESS || asset == ZERO_ADDRESS {
        return Some(ZeroAddress);
      }
      accounts := accounts[sender := Account(managedWallet, returnAddress, asset)];
      return None;
    }

    method AllowVenue(sender: Address, venue: Address, allowed: bool) returns (r: Option<VaultError>)
      modifies this`allowedVenue
      ensures (State(), r) == Run(c, old(State()), SetVenue(sender, venue, allowed))
    {
      if sender !in accounts {
        return Some(NoAccount);
      }
      allowedVenue := allowedVenue[(sender, venue) := allowed];
      return None;
    }

    /** What execute requires before it marks the digest. */
    method CheckAction(owner: Address, a: Action, sig: bytes) returns (r: Result<Account, VaultError>)
      ensures r == Check(c, State(), owner, a, sig)
    {
      if owner !in accounts {
        return Err(NoAccount);
      }
      var account := accounts[owner];
      if a.asset != account.asset {
        return Err(WrongAsset);
      }
      if a.kind == KIND_ALLOCATE || a.kind == KIND_REBALANCE {
        if (owner, a.dest) !in allowedVenue || !allowedVenue[(owner, a.dest)] {
          return Err(VenueNotAllowed);
        }
      } else if a.kind == KIND_WITHDRAW {
        if a.dest != account.returnAddress {
          return Err(NotReturnAddress);
        }
      } else {
        return Err(BadKind);
      }
      var d := ActionDigest(c, a);
      if d in usedDigest {
        return Err(Replay);
      }
      if Recover(c, d, sig) != account.managedWallet {
        return Err(BadSigner);
      }
      return Ok(account);
    }

    /** A revert restores what the call found, nested calls' effects included. */
    method ExecuteAction(owner: Address, a: Action, sig: bytes, token: TokenRun) returns (r: Option<VaultError>)
      modifies this
      ensures (State(), r) == Run(c, old(State()), Execute(owner, a, sig, token))
      decreases token, 1
    {
      hide Check, ActionDigest;
      var entry := State();
      var checked := CheckAction(owner, a, sig);
      if checked.Err? {
        return Some(checked.error);
      }
      var account := checked.value;
      usedDigest := usedDigest + {ActionDigest(c, a)};

      DispatchAll(token.before);
      held := held[a.asset := At(held, a.asset) + token.moved];
      DispatchAll(token.after);
      if token.result != ReturnsTrue {
        RestoreTo(entry);
        return Some(if token.result == ReturnsFalse then TransferFailed else CallReverted);
      }
      log := log + [ActionExecuted(owner, a, account.managedWallet)];
      return None;
    }

    method Dispatch(call: Call) returns (r: Option<VaultError>)
      modifies this
      ensures (State(), r) == Run(c, old(State()), call)
      decreases call, 0
    {
      match call {
        case RegisterAccount(sender, managedWallet, returnAddress, asset) =>
          r := Register(sender, managedWallet, returnAddress, asset);
        case SetVenue(sender, venue, allowed) => r := AllowVenue(sender, venue, allowed);
        case Execute(owner, a, sig, token) => r := ExecuteAction(owner, a, sig, token);
        case PayIn(token, amount) =>
          held := held[token := At(held, token) + amount];
          paidIn := paidIn[token := At(paidIn, token) + amount];
          r := None;
        case Group(calls, reverts) =>
          var entry := State();
          DispatchAll(calls);
          if reverts {
            RestoreTo(entry);
            return Some(CallReverted);
          }
          r := None;
      }
    }

    method DispatchAll(calls: seq<Call>)
      modifies this
      ensures State() == RunAll(c, old(State()), calls)
      decreases calls, 0
    {
      if calls != [] {
        var _ := Dispatch(calls[0]);
        DispatchAll(calls[1..]);
      }
    }

    method PreviewExecute(owner: Address, a: Action, sig: bytes) returns (p: Preview)
      ensures p == PreviewOf(c, State(), owner, a, sig)
    {
      if owner !in accounts {
        return Preview(false, ZERO_ADDRESS, "no account");
      }
      var account := accounts[owner];
      if a.asset != account.asset {
        return Preview(false, ZERO_ADDRESS, "wrong asset");
      }
      if a.kind == KIND_ALLOCATE || a.kind == KIND_REBALANCE {
        if (owner, a.dest) !in allowedVenue || !allowedVenue[(owner, a.dest)] {
          return Preview(false, ZERO_ADDRESS, "venue not allowed");
        }
      } else if a.kind == KIND_WITHDRAW {
        if a.dest != account.returnAddress {
          return Preview(false, ZERO_ADDRESS, "not return address");
        }
      } else {
        return Preview(false, ZERO_ADDRESS, "bad kind");
      }
      var d := ActionDigest(c, a);
      var recovered := Recover(c, d, sig);
      var ok := recovered == account.managedWallet;
      return Preview(ok, recovered, if ok then "ok" else "signer mismatch");
    }
  }
}
