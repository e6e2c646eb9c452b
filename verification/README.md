# Mindorr: a verified model of the trust protocol

Mindorr lets a TEE enclave manage users' funds under policies that the users set. The enclave derives one wallet per
user from a master seed, evaluates every requested action against the user's policy, and signs the action's digest only
if the guard allows it. On chain, `MindorrVault` re-checks the destination, recovers the signer and releases the tokens.
This project models both halves and what they rely on, and proves how far they fit together: for accounts under the
enclave's wallets, what is paid out was approved and signed. Accounts under other wallets are paid from the same balance
without the enclave; Findings states the condition under which that cannot happen.

The state machines are functions on values (`Handlers.Apply`, `Vault.Run`, `Server.Step`, `Registration.RunOnce`), about
which whole runs are reasoned. The source's objects are classes with the same fields, updated in place, and each of
their methods is proved to do what the function says.

| files | model |
|---|---|
| `Common`, `Crypto` | shared types; the cryptography as functions that are passed in, with hypotheses as predicates |
| `Encoding`, `Abi`, `Codec` | hex and bytes32, the 128-byte action encoding in its three implementations, payload decoding and the digest |
| `PolicyGuard`, `DemoGuard` | the enclave's guard, and the demo's guard that claims the same rules |
| `Fdc`, `Wallet`, `Handlers` | deposit check, wallet manager, the enclave's handlers |
| `HandlerRuns`, `Tenants`, `LetterCase`, `Bookkeeping`, `Signing`, `Concentration`, `UntestedShares` | what holds over runs of the enclave |
| `Requests` | what each request is answered, told from its payload's fields and what is stored for its user |
| `Aborts` | when a handler's promise rejects, and which policies rule it out |
| `Server`, `AsyncEnclave`, `Routing`, `Instructions` | the promise chain of `serialize`, the enclave's asynchronous handlers behind it, and the way from an HTTP request, and from the contract's instructions, to it |
| `Vault`, `VaultRuns`, `VaultHistory` | the contract with re-entrant token calls, what holds over its runs, and the same contract told by its calls without storage |
| `EndToEnd`, `Payouts`, `Solvency` | enclave and vault together: soundness, totals, completeness, and what backs the balance |
| `AsyncEndToEnd` | the same with the enclave behind its asynchronous server |
| `Scenario` | concrete runs: a handler that aborts, two users whose actions have one digest |
| `Registration`, `RegistrationRuns`, `RegistrationCounts` | `RegisterNode` with crashes, failed saves, late transactions and reruns |
| `Dispatch`, `GoMirrors`, `InstructionSender` | routing of operations, the Go tools' recomputations, the extension id |

## What is assumed

Nothing is assumed of keccak, ECDSA or JSON parsing unless a theorem's `requires` says so:

- `EndToEnd.NoCollision`: the hash does not collide between an executed action and a signed one of the same run. This
  is a statement about one run, since no function into 32 bytes is injective on all inputs.
- `EndToEnd.OnlyEnclaveSigns`: whenever the vault is called with a signature that recovers to an enclave wallet, the
  enclave had given out that wallet's signature on that digest before. `AsyncEndToEnd.OnlyServedSignatures` is the
  same with "given out" meaning that the answer has settled.
- `Crypto.SignaturesRecover`: a valid key's signature is r, s and 27 or 28, and `ecrecover` gives the key's address for
  these. `Scenario.SignatureHypothesisIsConsistent` gives functions that meet it.
- `VaultRuns.AllConserving`, for the balance theorems only: a transfer that returns true moves exactly its amount.
- `Solvency.AllRegisterOnly`, where a theorem speaks of all executions or of the balance: every account registered in
  the run, at any depth, names an enclave wallet.
- `Payouts.NoDerivationCollision`, for the cap on payouts only: neither keccak nor the address of a key collides
  between the 52-byte derivation inputs behind the run's signatures and those of the user.
- `Concentration.AccurateReports`, for the concentration cap over runs only: the user's requests report the portfolio
  value and the venue's balance as they are, since the handlers take both from the payload.
- The chain accepts a second `register` of the same machine; nothing in the repository says whether it does. A
  sender's transactions are mined in nonce order: what waits is mined before anything sent later.

## Findings

- The demo's guard is documented as having the same rules as the enclave's. They differ in one case, a negative cap
  that is not a whole number, met exactly by the projection: there `BigInt` division truncates upward and the enclave
  approves what the demo refuses. `DemoGuard.GuardsAgreeExactly` proves that this is the only one. It needs a negative
  venue balance, which no decoded payload has.
- The guard skips its concentration test for a bps of 10000 or more, and for a portfolio value of 0 or none. The share is
  kept in all runs with accurate reports if and only if the test is made (`UntestedShares.ShareIsKeptIffTested`); on
  the other side each action is bounded by the amount cap alone (`UntestedShareIsSigned`).
- The digest prefers `to` over `venue` while the guard checks one of them by kind. That the signed destination is the
  checked one is not a property of the guard; it holds because the decoder never fills in both
  (`Codec.SignedDestinationIsChecked`, `Codec.ParsesWhatIsDescribed`).
- `execute` pays every account from one balance, and `registerAccount` takes any wallet from anyone. An account under
  a wallet that is not the enclave's is paid on that wallet's signature alone: `Solvency.PayoutWithoutEnclave` is a
  run without any enclave event that takes everything others paid in. If every registered wallet is the enclave's,
  every execution was approved and the balance covers what was paid in less what was signed
  (`EveryExecutionIsApproved`, `BalanceIsBacked`); one other account whose key someone holds extends a run to an
  unapproved payout (`OtherWalletsArePaidUnsigned`).
- An approved amount that is no uint256 makes the handler's promise reject, because the digest is computed outside its
  `try` (`Aborts.AbortsExactly`, with the run `Scenario.AbortingRun`). Nothing catches it: `serve` awaits the request
  without a catch (extension/typescript/src/base/server.ts:214) and is itself not awaited
  (extension/typescript/src/base/server.ts:63). It can happen exactly under policies with a cap of 2^256 or more
  (`Aborts.CapDecidesAborts`), and never if no `SET_POLICY` carries one (`Aborts.SmallCapsNeverReject`). An operation
  identifier that is truthy and no string escapes in the same way before the queue (`Routing.RoutesByName`).
- The digest does not cover the owner, a nonce or the contract. A second signature on the same kind, asset, amount and
  destination is the same message, and the vault executes it once, also when it is another user's
  (`Scenario.SecondIsReplay`, with the run `Scenario.SecondUserIsReplayed`).
- A machine can be registered more than once. It is registered at most once in all runs if and only if lookups neither
  fail nor are made while a `register` waits to be mined (`RegistrationCounts.OnceIffLookupsSee`), as one can once the
  two minutes that the tool waits for it are over (extension/tools/pkg/support/support.go:195-199). Registrations are
  at most one more than such lookups (`RegistersAtMostOnce`), and both kinds reach the bound for every number of them
  (`FailedLookupsReachTheBound`, `EarlyLookupsReachTheBound`).
- A state file that was cut off while being written stops every later run.

## Model

| member | source | states |
|---|---|---|
| EndToEnd.EndToEndSoundness | extension/contracts/MindorrVault.sol:91-119 | in every interleaved run, whatever the vault has executed under an enclave wallet after n events has the kind, asset, amount and destination of an answer that the enclave gave among those n events, signed with that wallet as its user's derived wallet, and the policy then in force allowed the asset, the amount and the destination; the logged kind is the contract's own code of the operation that the answer printed |
| EndToEnd.ExecutionsAreBacked | extension/contracts/MindorrVault.sol:112-118 | every execution under an enclave wallet carries a digest that the enclave signed with that wallet, in every interleaving of requests and re-entrant transactions |
| Solvency.EveryExecutionIsApproved | extension/contracts/MindorrVault.sol:66-119 | if only enclave wallets are ever registered, at any depth, every execution after n events was approved by an answer among those n events |
| Solvency.BalanceIsBacked | extension/contracts/MindorrVault.sol:91-119 | and with conserving tokens the vault holds of every token at least what was paid in less what the enclave signed for that asset |
| Solvency.RunKeepsEnrolled | extension/contracts/MindorrVault.sol:66-72 | that all accounts and executions are under these wallets survives any re-entrant call that registers no other |
| Solvency.OtherWalletsArePaidUnsigned | extension/contracts/MindorrVault.sol:91-119 | the condition is needed: an account under another wallet whose key someone holds extends any run to one that meets all other hypotheses and pays what no answer approved |
| Solvency.KeyHolderIsPaid | extension/contracts/MindorrVault.sol:91-119 | in any state whoever holds the key of an account's wallet withdraws any amount whose digest is unused to the account's return address |
| Solvency.PayoutWithoutEnclave | extension/contracts/MindorrVault.sol:66-119 | three calls without any enclave event after which the vault has paid out all that others paid in |
| AsyncEndToEnd.ServedRunIsSystemRun | extension/typescript/src/base/server.ts:144-199 | every run of the asynchronous server interleaved with transactions is, for the vault and for who knows which signature, the run in which each request is handled at once when its answer settles |
| AsyncEndToEnd.ServedSoundness | extension/contracts/MindorrVault.sol:91-119 | in every such run, what was executed under an enclave wallet was approved by an answer that had settled |
| AsyncEndToEnd.ServedBalanceIsBacked | extension/contracts/MindorrVault.sol:91-119 | in every such run the balance is backed by the settled answers, if only enclave wallets are registered |
| Payouts.EndToEndCompleteness | extension/contracts/MindorrVault.sol:99-114 | against an account that mirrors the policy, a signature the enclave gives fails exactly one check, Replay, and exactly if its digest is used; the preview is ok, and the kind is the contract's code of the printed operation |
| Payouts.SignedIsPayable | extension/contracts/MindorrVault.sol:91-119 | with an unused digest and a transfer that returns true, whatever it calls back, execute succeeds and logs exactly the signed action |
| Payouts.PaidIsAtMostSigned | extension/contracts/MindorrVault.sol:112-118 | over every run of the system, the amounts executed under an enclave wallet sum to at most the amounts signed with it |
| Payouts.PaidIsCapped | extension/typescript/src/app/policy.ts:132-137 | while no policy of a user allows more than a cap, the vault pays out for a wallet derived for the user at most the number of the user's signed actions times the cap; that nobody else signs with it follows from no collision of the derivations |
| Scenario.SignatureHypothesisIsConsistent | extension/contracts/MindorrVault.sol:156-168 | some signing and recovery functions meet the hypothesis on signatures under the contract's byte layout |
| Scenario.SecondIsReplay | extension/contracts/MindorrVault.sol:82-115 | once an action was executed, every other signed answer that prints the same action, of the same user or another, is stopped by Replay, whatever happens in between |
| Scenario.SecondUserIsReplayed | extension/contracts/MindorrVault.sol:82-115 | a run with two users, wallets and accounts: the first one's withdrawal is paid, the second one's is the same message and fails with Replay |
| Signing.SignedRequestIsSound | extension/typescript/src/app/handlers.ts:234-279 | a request is answered with a signature only on the managed asset, an amount in (0, maxTxAmount] that is a uint256, and a permitted destination, with the digest of the printed action, by the user's derived key |
| Signing.EverySignatureIsSound | extension/typescript/src/app/handlers.ts:251-278 | the same for every answer of every run, with the policy that the user's last SET_POLICY event before it described, and a key derived from the seed that the last delivery before it carried, both read off the trace |
| Signing.SignedTotalIsBounded | extension/typescript/src/app/handlers.ts:251-268 | while no policy of a user allows more than a cap, the user's signed total is at most actionsSigned times the cap |
| Aborts.AbortsExactly | extension/typescript/src/app/handlers.ts:234-279 | a handler aborts if and only if it is a vault action that decodes, with a seed and a policy set, whose intent parses and is allowed, and whose amount is no uint256 |
| Aborts.AbortChangesNothing | extension/typescript/src/app/handlers.ts:251-262 | an aborted handler moves no counter, policy or seed of any user |
| Aborts.CapDecidesAborts | extension/typescript/src/app/policy.ts:132-137 | a well-formed policy approves some intent whose digest throws if and only if its cap is 2^256 or more |
| Aborts.SmallCapsNeverAbort | extension/typescript/src/app/handlers.ts:180-193 | if no SET_POLICY of a run carries such a cap, no handler of the run aborts |
| Aborts.ServedRejectionIsAbort | extension/typescript/src/base/server.ts:144-199 | for any interleaving, the promise of a call rejects if and only if the call aborts in the state that the requests before it leave |
| Aborts.SmallCapsNeverReject | extension/typescript/src/base/server.ts:144-199 | for any interleaving without such a SET_POLICY no promise of the queue rejects |
| Scenario.AbortingRun | extension/typescript/src/app/handlers.ts:251-262 | a run of a seed, a policy with a cap of 2^256 and a withdrawal of 2^256, whose third handler aborts |
| Scenario.WithdrawalAnswer | extension/typescript/src/app/handlers.ts:234-279 | an authorized withdrawal within the cap is signed by the user's derived wallet, or aborts if it is no uint256 |
| Codec.SignedDestinationIsChecked | extension/typescript/src/app/codec.ts:133-139 | for an approved intent the digest covers the destination the guard checked if and only if a venue intent carries no other `to` |
| Codec.ApprovedActionIsPermitted | extension/typescript/src/app/policy.ts:121-198 | an approved decoded intent, read as bytes, is for the policy's asset, within its cap, to a listed venue or the return address |
| Codec.ApprovalIsExact | extension/typescript/src/app/policy.ts:121-198 | for decoded policies and intents the guard approves exactly what its rules allow with addresses compared as bytes |
| Codec.ActionDigestIsVaultDigest | extension/typescript/src/app/codec.ts:133-144 | the enclave's digest is the hash of the contract's encoding of the same bytes under the contract's own kind constant, and it throws exactly when the amount is no uint256 |
| Codec.PolicyRoundTrip | extension/typescript/src/app/codec.ts:74-103 | printing then parsing restores a policy, and the well-formed policies are exactly those that some payload parses to |
| Codec.ParsesDescribedPolicy | extension/typescript/src/app/codec.ts:74-103 | a policy is read from a value if and only if it is well formed and the value is an object that describes it with all eight fields |
| Codec.ParsesWhatIsDescribed | extension/typescript/src/app/codec.ts:106-126 | the decoder reads an intent from an object if and only if the intent is well formed and the object describes it field by field |
| Codec.ParsedIntentIsWellFormed | extension/typescript/src/app/codec.ts:106-126 | a decoded intent has the kind of the operation and exactly one of venue and to, both addresses well formed, no negative amount |
| Codec.DecimalRoundTrip | extension/typescript/src/app/codec.ts:42-48 | reading back a printed amount restores it |
| Codec.DecimalSpellings | extension/typescript/src/app/codec.ts:42-48 | the accepted amounts are the printed numbers behind any number of zeros, and are read as that number |
| Abi.ActionRoundTrip | extension/contracts/MindorrVault.sol:82-88 | decoding the 128 bytes restores the action, for every amount below 2^256 |
| Abi.AbiEncodeInjective | extension/contracts/MindorrVault.sol:82-88 | two actions with the same encoding are the same action |
| Abi.HexEncodeIsAbi | extension/typescript/src/app/codec.ts:138-142 | the hex string the enclave builds from address strings denotes exactly the contract's 128 bytes |
| Abi.GoEncode | extension/tools/cmd/run-test/main.go:300-307 | the appended slice is the four left-padded words |
| Abi.GoEncodeIsAbi | extension/tools/cmd/run-test/main.go:300-307 | the Go bytes are the contract's bytes for every uint256 amount, and are 128 long only then |
| GoMirrors.GoRecomputesEveryDigest | extension/tools/cmd/run-test/main.go:199-202 | for every signed allocation of every run, the digest Go computes with its literal 1 from the printed asset, decimal amount and destination is the reported one; so it is with 2 and 3 for the other two operations |
| GoMirrors.DeriveWalletAddress | extension/tools/cmd/live-server/main.go:369-381 | seed then address bytes are hashed and turned into an address, or it fails |
| GoMirrors.GoDerivesSameWallet | extension/tools/cmd/live-server/main.go:369-381 | for every valid address Go derives the enclave's wallet from the same seed, and fails exactly when the enclave does |
| GoMirrors.ValidAddr | extension/tools/cmd/live-server/main.go:405-411 | Go accepts exactly the strings the enclave's address pattern accepts |
| GoMirrors.HexToAddressAgrees | extension/tools/cmd/live-server/main.go:374 | on such a string Go and the enclave read the same 20 bytes, though Go's reader crops, pads and drops bad digits |
| GoMirrors.ToHash | extension/tools/cmd/live-server/main.go:79-88 | the first 32 bytes of the name, padded on the right |
| GoMirrors.GoIdsReachHandlers | extension/tools/cmd/live-server/main.go:100-103 | the ids Go sends for an operation, in any letter case, reach that operation's handler |
| Vault.MindorrVault.Register | extension/contracts/MindorrVault.sol:66-72 | registers the sender's account unless one of the three addresses is zero |
| Vault.MindorrVault.AllowVenue | extension/contracts/MindorrVault.sol:75-79 | sets the flag for an existing account, else reverts |
| Vault.MindorrVault.CheckAction | extension/contracts/MindorrVault.sol:99-114 | the account, or the first check that fails, before anything is written |
| Vault.MindorrVault.ExecuteAction | extension/contracts/MindorrVault.sol:91-119 | storage, log and revert of execute are those of the call tree, with the token calling back before and after it moves the balance |
| Vault.MindorrVault.Dispatch | extension/contracts/MindorrVault.sol:66-119 | any nested call, reverting frames included, updates the storage in place as the call tree says |
| Vault.MindorrVault.PreviewExecute | extension/contracts/MindorrVault.sol:130-154 | the answer of previewExecute, with the first failing check |
| VaultRuns.RunKeepsDigests | extension/contracts/MindorrVault.sol:112-118 | through any re-entrant call tree, the used digests are exactly those of committed and of open executions, which are disjoint |
| VaultRuns.AtMostOncePerDigest | extension/contracts/MindorrVault.sol:112-115 | in every run each digest is executed at most once, and it is used if and only if it was executed |
| VaultRuns.OutflowIsWhatWasExecuted | extension/contracts/MindorrVault.sol:116-118 | with conserving tokens, what left the vault is the sum of the executed amounts to other addresses, for every token |
| VaultRuns.RunKeepsLog | extension/contracts/MindorrVault.sol:112-118 | no call, at any depth and reverted or not, removes or changes an execution that was committed before it, or frees a used digest |
| VaultRuns.RunKeepsBacked | extension/contracts/MindorrVault.sol:112-118 | if presented signatures were really made, so were those of all executions, through any nesting |
| VaultRuns.PreviewAgreesWithExecute | extension/contracts/MindorrVault.sol:130-154 | in every state the preview is ok with an unused digest if and only if execute reaches the transfer; otherwise it names the check execute reverts on, Replay apart |
| VaultHistory.ExecuteAnswersExactly | extension/contracts/MindorrVault.sol:91-154 | in every state each revert of execute and each answer of previewExecute has its exact condition on the stored account, the stored venue flag, the kind, the digest and the recovered address |
| VaultHistory.RunsAreHistory | extension/contracts/MindorrVault.sol:66-119 | over all runs the log holds exactly the executions that the calls entered, each justified by the calls before it, and accounts, venue flags and used digests are what the calls said last; the history is computed without the storage |
| VaultHistory.RunIsTold | extension/contracts/MindorrVault.sol:66-119 | through any re-entrant call tree the storage stays what the history says last |
| VaultHistory.PaidVenuesWereAllowed | extension/contracts/MindorrVault.sol:75-119 | before anything was paid to a venue its owner had set that venue to true and said nothing else of it since |
| VaultRuns.FailedRecoveryIsNeverAccepted | extension/contracts/MindorrVault.sol:156-168 | in every reachable state a signature of the wrong length, or one that recovers to zero, is accepted by neither execute nor the preview |
| Crypto.SignatureLength | extension/contracts/MindorrVault.sol:156-157 | the signatures of valid keys are 65 bytes long, since any other length recovers to zero |
| Crypto.RecoverIsExact | extension/contracts/MindorrVault.sol:156-168 | recovery passes r, s and 27 or 28 to ecrecover, whichever of the two conventions v is written in |
| Crypto.SignatureRecovers | extension/contracts/MindorrVault.sol:156-168 | recovering from a valid key's signature as the contract does yields its address |
| Server.Server.Serialize | extension/typescript/src/base/server.ts:192-199 | serialize adds a run promise and a tail promise and moves the queue to the tail |
| Server.StepKeepsInv | extension/typescript/src/base/server.ts:192-199 | any arrival, microtask or resolved await keeps the promise chain in one of four phases, with the answers of a sequential run |
| Server.Linearization | extension/typescript/src/base/server.ts:187-199 | for any interleaving handlers never overlap, start in order of arrival, and give the answers, rejections included, and the state of a sequential run; when nothing is pending all have been answered |
| Server.NextTaskStarts | extension/typescript/src/base/server.ts:187-199 | once the earlier handlers settled, however they did, the next queued one has started when two more microtasks have run, whatever arrives and resolves in between |
| Server.RejectedExactlyIfThrown | extension/typescript/src/base/server.ts:192-199 | for any interleaving, the promise that serialize returned is rejected if its handler threw, and fulfilled if it returned |
| AsyncEnclave.ServerRunsEnclaveSequentially | extension/typescript/src/base/server.ts:133-185 | the enclave's asynchronous handlers and state reads behind the server answer as if handled one at a time in order of arrival |
| Routing.RoutesByName | extension/typescript/src/base/server.ts:85-146 | a handler is passed to serialize exactly for the POST of an action whose identifiers are, as bytes, the names of its operation, with that action's message; an exception escapes exactly for an identifier that is truthy and no string |
| Instructions.InstructionReachesItsHandler | extension/contracts/InstructionSender.sol:87-145 | each forwarding function of the contract, posted as an action, is passed to serialize as the request of its own operation with its own message |
| Instructions.UnwrapsExactly | extension/typescript/src/base/server.ts:105-131 | what is read from a body is exactly the DataFixed object inside the message of its action |
| Instructions.StatusesAreExact | extension/typescript/src/base/server.ts:85-134 | 404, 405 and 400 are each answered under exactly one condition on path, method and body |
| Routing.WireIsServedInOrder | extension/typescript/src/base/server.ts:85-199 | for any interleaving of HTTP requests, the handlers of those that pass answer as if run one at a time in the order in which these requests came |
| AsyncEnclave.EveryServedSignatureIsSound | extension/typescript/src/base/server.ts:144-199 | for any interleaving, a signature the server hands out keeps to the policy set by the requests that arrived before, and is made with the key derived from the seed they left |
| AsyncEnclave.EveryServedReportIsExact | extension/typescript/src/base/server.ts:178-185 | for any interleaving, a state read reports exactly the signed, refused and deposit-accepted answers given before it, whether a seed was delivered before it, and how many users have an entry |
| Handlers.Enclave.UserOf | extension/typescript/src/app/handlers.ts:51-59 | returns the user's entry under any letter case, creating a fresh one if there is none |
| Handlers.Enclave.HandleUpdateKey | extension/typescript/src/app/handlers.ts:136-152 | loads a decrypted 32-byte seed, and changes nothing in any other case |
| Handlers.Enclave.HandleCreateWallet | extension/typescript/src/app/handlers.ts:160-177 | reveals the derived wallet and creates the entry, in that order of failures |
| Handlers.Enclave.HandleSetPolicy | extension/typescript/src/app/handlers.ts:180-193 | stores the decoded policy under its owner and keeps the counters |
| Handlers.Enclave.HandleConfirmDeposit | extension/typescript/src/app/handlers.ts:201-231 | adds the received amount and counts the deposit exactly when the proof is accepted |
| Handlers.Enclave.HandleVaultAction | extension/typescript/src/app/handlers.ts:234-279 | refuses and counts, aborts on an amount that cannot be encoded, or signs and counts; the state and the answer are those of the step function |
| Handlers.Enclave.ReportState | extension/typescript/src/app/handlers.ts:77-93 | the looped totals are the sums over all users |
| HandlerRuns.RunKeepsValid | extension/typescript/src/app/handlers.ts:180-193 | in every reachable state each stored policy is well formed and filed under its own owner |
| HandlerRuns.UpdateKeyAnswersExactly | extension/typescript/src/app/handlers.ts:136-152 | the seed becomes exactly the 32 bytes that were decrypted from a nonempty message; every other case changes nothing and has its own error |
| HandlerRuns.SeedIsLastDelivered | extension/typescript/src/app/wallet.ts:67-73 | in every run the seed is the one that the last delivering event of the trace carried |
| HandlerRuns.SetPolicyAnswersExactly | extension/typescript/src/app/handlers.ts:180-193 | a policy is stored exactly if the payload describes it, under its owner and with the counters kept; every other payload changes nothing |
| HandlerRuns.PolicyIsLastSet | extension/typescript/src/app/handlers.ts:180-193 | in every run the policy stored for a user is the one that the user's last SET_POLICY event described |
| Requests.CreateWalletAnswersExactly | extension/typescript/src/app/handlers.ts:160-177 | with a seed and a payload that names a user, the answer is the address of the key of seed and user bytes, and the user has an entry; else nothing changes |
| Requests.ConfirmDepositAnswersExactly | extension/typescript/src/app/handlers.ts:201-231 | a described deposit is credited in full exactly if its own identifiers agree as bytes and its amount reaches its minimum, for a user with a policy; every other case credits nothing |
| Requests.VaultActionAnswersExactly | extension/typescript/src/app/handlers.ts:234-279 | what the payload describes, the rules on bytes, the amount and the key decide whether the answer is a signature, with every field of it given, a refusal, an abort or a failure |
| Tenants.TenantNonInterference | extension/typescript/src/app/handlers.ts:49-59 | deleting every other user's requests from any run, seed deliveries kept, leaves all answers to one user and all that is stored for that user unchanged |
| LetterCase.LetterCaseIsIrrelevant | extension/typescript/src/app/handlers.ts:49-59 | respelling the users of any run in other letter case leaves the state and the answers the same, but for how they spell the user |
| LetterCase.ApplyAlike | extension/typescript/src/app/handlers.ts:160-279 | one request, on states that differ at most in how stored policies spell their owner |
| Bookkeeping.CensusIsExact | extension/typescript/src/app/handlers.ts:77-93 | the totals equal the number of signed, refused and deposit-accepted answers of the run |
| Bookkeeping.UserBooksBalance | extension/typescript/src/app/handlers.ts:222-223 | each counter of a user is what the answers to that user's own requests add up to, received drops included |
| Bookkeeping.DropsCoverMinimums | extension/typescript/src/app/handlers.ts:217-223 | a user's confirmed drops are at least the sum of the minimums of that user's accepted deposits |
| Bookkeeping.FailureMovesNothing | extension/typescript/src/app/handlers.ts:201-279 | a request without success changes nothing of any user but the refused count of its own, and that only by refusing |
| Fdc.AcceptedDepositIsExact | extension/typescript/src/app/fdc.ts:178-195 | a decoded deposit is accepted exactly when it succeeded, matches as bytes and is large enough; each refusal code names the first check that fails |
| Fdc.ParsesDescribedDeposit | extension/typescript/src/app/fdc.ts:108-128 | a deposit is read from a value if and only if it is an object whose proof and whose expectation, each from its own fields, describe it |
| Fdc.Bytes32Spellings | extension/typescript/src/app/fdc.ts:84-95 | the accepted identifiers are 0x and the digits of 32 bytes, in either case |
| Wallet.WalletManager.LoadSeed | extension/typescript/src/app/wallet.ts:67-73 | takes a 32-byte seed and drops the cache; any other length changes nothing |
| Wallet.WalletManager.WalletFor | extension/typescript/src/app/wallet.ts:88-99 | equals a fresh derivation from the current seed, cached or not |
| Wallet.WalletManager.Clear | extension/typescript/src/app/wallet.ts:101-104 | forgets the seed and the cache |
| Wallet.DeriveKey | extension/typescript/src/app/wallet.ts:111-120 | the buffer filled by two copies is the seed followed by the user's 20 bytes |
| Wallet.RunManager | extension/typescript/src/app/wallet.ts:54-105 | over every run of loads, failed loads, lookups and clears the caching manager answers as one without a cache |
| Wallet.SameUserSameWallet | extension/typescript/src/app/wallet.ts:84-99 | two lookups with no new seed between them give the same wallet if the names differ only in letter case |
| Wallet.DeriveIgnoresCase | extension/typescript/src/app/wallet.ts:111-120 | derivation, failures included, does not depend on letter case |
| Wallet.DerivationFailsExactly | extension/typescript/src/app/wallet.ts:111-120 | each failure of a derivation has its own condition on the bytes of the name |
| PolicyGuard.TruncatedTestIsExact | extension/typescript/src/app/policy.ts:155-157 | the truncating comparison is the exact one unless a negative cap with a remainder is met exactly |
| PolicyGuard.GuardIsExact | extension/typescript/src/app/policy.ts:121-198 | the guard approves exactly the permitted intents, with 10000 times the projection compared to value times bps, negative bps included |
| PolicyGuard.ConcentrationRefusalIsExact | extension/typescript/src/app/policy.ts:149-163 | an intent that reaches the concentration test is refused for it if and only if its share exceeds the bps |
| PolicyGuard.GuardMonotone | extension/typescript/src/app/policy.ts:121-198 | a pointwise tighter policy approves nothing that the looser one refuses |
| PolicyGuard.SmallerAmountStaysApproved | extension/typescript/src/app/policy.ts:121-198 | an approved intent stays approved at any smaller positive amount |
| PolicyGuard.ConcentrationHoldsOnRuns | extension/typescript/src/app/policy.ts:149-163 | along any run with accurate balances, a fixed portfolio value above 0 and a bps below 10000, every venue that was allocated to stays within the cap |
| PolicyGuard.ShareIsKeptIffTested | extension/typescript/src/app/policy.ts:149-163 | from any balances, all runs stay within the cap if and only if the portfolio value is above 0 and the bps below 10000, or the policy allows no allocation at all |
| PolicyGuard.UntestedShareIsExceeded | extension/typescript/src/app/policy.ts:149-163 | in every other case some run of approved allocations exceeds the cap |
| Concentration.SignedSharesStayCapped | extension/typescript/src/app/handlers.ts:234-279 | along any run of the enclave in which a user's requests report a fixed portfolio value above 0 and what each venue holds, with policies whose bps are below 10000, every venue signed into for that user holds at most the allowed share, whatever other users and policy updates come between |
| UntestedShares.ShareIsKeptIffTested | extension/typescript/src/app/policy.ts:149-163 | over all runs of the enclave with accurate reports, what is signed into a venue stays within the share if and only if the portfolio value is above 0 and the bps below 10000 |
| UntestedShares.UntestedShareIsSigned | extension/typescript/src/app/handlers.ts:234-279 | for every other portfolio value and bps a run of a seed, a policy with that bps and one accurately reported allocation, which is signed beyond the share |
| Concentration.MoveWasApproved | extension/typescript/src/app/handlers.ts:251-278 | an answer that moves an amount into a venue answers a decoded intent for that venue and amount, which the policy in force approves |
| DemoGuard.GuardsAgreeExactly | app/src/lib/guard.ts:67-110 | on every integer intent the two guards give the same flag and code if and only if it does not meet a truncated negative cap |
| DemoGuard.GuardsAgreeOnReportedBalances | app/src/lib/guard.ts:67-110 | they agree on every intent whose reported balance is not negative, as every decoded one's is |
| DemoGuard.GuardsDiffer | app/src/lib/guard.ts:82-88 | an intent that the demo refuses and the enclave approves |
| Encoding.HexToBytes | extension/typescript/src/base/encoding.ts:16-35 | the loop decodes a string with or without prefix, and gives the error of the first check that fails |
| Encoding.BytesToHex | extension/typescript/src/base/encoding.ts:38-42 | the loop gives the prefixed lower-case hex |
| Encoding.StringToBytes32Hex | extension/typescript/src/base/encoding.ts:50-58 | the hex of the padded bytes, or an error with the length above 32 |
| Encoding.Bytes32HexToBytes | extension/typescript/src/base/encoding.ts:64-74 | the loop trims to the longest prefix not ending in zero; malformed hex reads as nothing |
| Encoding.HexRoundTrip | extension/typescript/src/base/encoding.ts:16-42 | hexToBytes inverts bytesToHex on all byte arrays |
| Encoding.DecodeHexIgnoresCase | extension/typescript/src/base/encoding.ts:16-35 | decoding, errors included, does not depend on letter case |
| Encoding.DecodesSpellings | extension/typescript/src/base/encoding.ts:16-42 | a string decodes to some bytes if and only if, without its prefix and in lower case, it is the hex of those bytes |
| Encoding.DecodeFailsExactly | extension/typescript/src/base/encoding.ts:16-35 | an odd number of digits, and else a character that is no hex digit, each have their own error |
| Encoding.AddressSpellings | extension/typescript/src/app/codec.ts:18-40 | the accepted addresses are 0x and the digits of 20 bytes, in either case |
| Encoding.AddressCase | extension/typescript/src/app/policy.ts:103-106 | two address strings are equal up to letter case if and only if they are the same 20 bytes |
| Encoding.PadTrimRoundTrip | extension/typescript/src/base/encoding.ts:50-74 | padding then trimming restores a byte string exactly when it does not end in zero |
| Encoding.Bytes32Injective | extension/typescript/src/base/encoding.ts:50-58 | among names not ending in a zero byte, the bytes32 hex determines the name |
| Dispatch.Framework.Handle | extension/typescript/src/base/types.ts:96-102 | appends the encoded pair, or throws and registers nothing when a name is too long |
| Dispatch.Framework.Lookup | extension/typescript/src/base/types.ts:105-116 | the two loops return what Find says |
| Dispatch.FindIsExactThenWildcard | extension/typescript/src/base/types.ts:104-116 | the first exact registration, else the first wildcard of the type, else nothing |
| Dispatch.NormalizeIsCanonical | extension/typescript/src/base/types.ts:120-124 | an identifier normalizes to the encoding of some bytes if and only if it decodes to them, in any case and with or without prefix; an absent one to that of 32 zeros |
| Dispatch.Register | extension/typescript/src/app/handlers.ts:66-74 | appends the seven registrations in order |
| Dispatch.EachOperationReachesItsHandler | extension/typescript/src/app/handlers.ts:66-74 | a pair of identifiers, empty ones included, reaches the handler of an operation if and only if it decodes to the bytes of its two names, and nothing if and only if it names none |
| Registration.Tool.SaveState | extension/tools/pkg/fccutils/registration.go:48-57 | the file after a save that worked, failed, or was cut off |
| Registration.Tool.SendTransaction | extension/tools/pkg/support/support.go:194-200 | a sent transaction gets an id if it is mined in time, after all that waited before it; otherwise it is waiting, mined unheard, or not sent |
| Registration.Tool.RegisterNode | extension/tools/pkg/fccutils/registration.go:59-172 | file, chain, waiting transactions and result of a run are those of the step functions, for every script of failures, late transactions and crashes |
| RegistrationRuns.RunsKeep | extension/tools/pkg/fccutils/registration.go:59-172 | the invariant on file, chain and waiting transactions, after any number of runs of one command, however each ended |
| RegistrationRuns.ChecksNameLastAttestation | extension/tools/pkg/fccutils/registration.go:75-147 | in all runs availability checks, those still to be mined included, name the last attestation issued, if and only if the command requests attestations or no checks |
| RegistrationRuns.ProofsAreForLastCheck | extension/tools/pkg/fccutils/registration.go:126-167 | in all runs proofs are fetched for the last check requested, if and only if the command requests checks or no proofs |
| RegistrationRuns.CompletedStepsArePrefix | extension/tools/pkg/fccutils/registration.go:99-147 | the saved steps are always a prefix of the requested ones, without repetition |
| RegistrationCounts.OnceIffLookupsSee | extension/tools/pkg/fccutils/registration.go:80-98 | a command that registers does so at most once in all runs, as far as lookups may fail or be made while a register waits, if and only if they may do neither |
| RegistrationCounts.RegistersAtMostOnce | extension/tools/pkg/fccutils/registration.go:80-98 | in every run, with all that waits mined, registrations are at most one more than blind lookups, and at most one if and only if no lookup that was blind after a sent register led to another |
| RegistrationCounts.FailedLookupsReachTheBound | extension/tools/pkg/fccutils/registration.go:80-98 | for every n a run with n failed lookups and n + 1 registrations |
| RegistrationCounts.EarlyLookupsReachTheBound | extension/tools/pkg/support/support.go:194-200 | for every n a run in which no lookup fails, n are made while a register waits, and n + 1 registrations are mined |
| RegistrationRuns.CleanRunFinishes | extension/tools/pkg/fccutils/registration.go:157-172 | after any earlier runs, whatever they left waiting, one without failures ends with no file, the machine registered, and a production step whose proof is for the last check of the last attestation; unless the file cannot be parsed |
| RegistrationRuns.GarbledFileBlocks | extension/tools/pkg/fccutils/registration.go:33-46 | with a file that cannot be parsed, no later run sends anything or changes the file |
| InstructionSender.Contract.SetExtensionId | extension/contracts/InstructionSender.sol:72-83 | reverts exactly if the id is set or no public id is registered to this contract; else the loop stores the least such id |
| InstructionSender.GetIdAnswersForRun | extension/contracts/InstructionSender.sol:149-152 | over all runs with an append-only registry, _getExtensionId answers exactly if some setExtensionId found the contract registered before, with the one least public id registered to it, which is what it answered at every earlier time |
| InstructionSender.IdIsLeastOrUnset | extension/contracts/InstructionSender.sol:72-83 | over all runs with an append-only registry, the id is set exactly if some call found the contract registered, and it is the least public id registered to it, then and now |
| InstructionSender.IdNeverChanges | extension/contracts/InstructionSender.sol:72-83 | once set, the id stays the same through every longer run |

## Left out

- HTTP transport, polling, timeouts and the node client: decryption is a value that an await produces, or none.
- keccak, secp256k1 and ECIES themselves: functions with the hypotheses above.
- JSON text, UTF-8 and TextDecoder: payloads are JSON values, names are bytes. JSON integers are unbounded, while
  JavaScript's lose precision above 2^53.
- Letter case beyond ASCII: no character outside ASCII lower-cases to a hex digit or an x.
- The printed form of addresses: wallets and signers are 20 bytes, without checksum casing. The texts of refusals and
  errors are their codes.
- `UNKNOWN_INTENT`, the default branch of both guards: the three registered handlers pass the three known kinds.
- Floating point in the demo's guard: its numbers are reals.
- Aliasing in the enclave: a handler holds a user's entry across its await by reference, and the manager keeps the
  caller's seed array. Handlers do not overlap and nobody else writes to either, so values say the same.
- The microtasks a promise-returning handler takes to settle its run promise: they are one step here. They delay the
  chain without reordering it.
- Who may set a policy, who sets `userAuthorized`, and whether a deposit proof is presented twice: the handlers do not
  decide it. Results are relative to the policy in force and to accepted deposits.
- `encodePaymentRequest` and the deposit fields it reads; nothing in the handlers uses them.
- Gas, the call-stack limit and value transfers of the EVM; calldata padding of addresses.
- The inside of registration's chain calls: each transaction is not sent, mined later than the tool waits, mined
  without the tool hearing of it, or mined with a fresh id. One that waits and is dropped is not modelled. A read
  error on the state file counts as a failed start.
- AsyncEnclave.ServerRunsEnclaveSequentially: starts at requests already routed; `Routing.WireIsServedInOrder` adds
  the way from the HTTP request. The bodies of answers, log lines and reading the body from the socket are in neither.
- Encoding.Bytes32HexToBytes: stops at the trimmed bytes; the TextDecoder that makes a string of them for the log is
  not part of this model.
- What Node does with a rejection that nothing catches, by default to end the process: the model goes on.
- The rest of the instruction sender: value transfer and the choice of a machine in its forwarding calls, and the
  registry's reserved ids below 0x10000, which the loop never looks at.
- Hello World scaffolds, the app's pages, minting and deployment scripts: they take no part in the trust protocol.
