/** The enclave's counters and deposits, against the answers it gave over a run. */
module Bookkeeping {
  import opened Common
  import opened Encoding
  import opened PolicyGuard
  import opened Codec
  import opened Handlers
  import opened HandlerRuns
  import opened Tenants
  import Fdc
  import W = Wallet

  /** What an answer adds to a counter of the user it answers. */
  function Gain(o: Outcome, c: Counter): nat {
    match c
    case SignedActions => if o.Success? && o.reply.Signed? then 1 else 0
    case RefusedActions => if o.Failed? && o.error.Refused? then 1 else 0
    case ConfirmedDeposits => if o.Success? && o.reply.DepositConfirmed? then 1 else 0
    case ReceivedDrops =>
      if o.Success? && o.reply.DepositConfirmed? && IsDecimal(o.reply.receivedFxrp) then
        DecimalValue(o.reply.receivedFxrp)
      else 0
  }

  function Entry(users: Users, key: string): UserState {
    if key in users then users[key] else FRESH_USER
  }

  ghost predicate OnlyEntryMoved(before: Users, after: Users, key: string) {
    && (key in before ==> key in after)
    && forall j :: j != key ==> (j in after <==> j in before) && (j in before ==> after[j] == before[j])
  }

  /** At most the requesting user's entry changed, and its counter moved by what was answered. */
  ghost predicate Counted(before: Users, after: Users, key: Option<string>, o: Outcome, c: Counter) {
    if key.None? then after == before && Gain(o, c) == 0
    else
      && OnlyEntryMoved(before, after, key.value)
      && Get(Entry(after, key.value), c) == Get(Entry(before, key.value), c) + Gain(o, c)
  }

  lemma UnchangedCounted(users: Users, key: Option<string>, o: Outcome, c: Counter)
    requires Gain(o, c) == 0
    ensures Counted(users, users, key, o, c)
  {
  }

  lemma UpdateCounted(users: Users, owner: string, u: UserState, o: Outcome, c: Counter)
    requires Get(u, c) == Get(Lookup(users, owner), c) + Gain(o, c)
    ensures Counted(users, Update(users, owner, u), Some(ToLower(owner)), o, c)
  {
  }

  lemma TouchCounted(users: Users, owner: string, o: Outcome, c: Counter)
    requires Gain(o, c) == 0
    ensures Counted(users, Touch(users, owner), Some(ToLower(owner)), o, c)
  {
    UpdateCounted(users, owner, Lookup(users, owner), o, c);
  }

  lemma CreateWalletCounted(env: Env, s: EnclaveState, msg: string, c: Counter)
    ensures var (t, o) := ApplyCreateWallet(env, s, msg);
      Counted(s.users, t.users, UserKey(env, CreateWallet(msg)), o, c)
  {
    hide W.Derive, DecodeUser;
    var (t, o) := ApplyCreateWallet(env, s, msg);
    UnchangedCounted(s.users, UserKey(env, CreateWallet(msg)), o, c);
    if DecodeUser(env, msg).Ok? {
      TouchCounted(s.users, DecodeUser(env, msg).value.1, o, c);
    }
    hide Counted;
  }

  lemma SetPolicyCounted(env: Env, s: EnclaveState, msg: string, c: Counter)
    ensures var (t, o) := ApplySetPolicy(env, s, msg);
      Counted(s.users, t.users, UserKey(env, SetPolicy(msg)), o, c)
  {
    hide ParsePolicy, DecodeJson;
    var (t, o) := ApplySetPolicy(env, s, msg);
    UnchangedCounted(s.users, UserKey(env, SetPolicy(msg)), o, c);
    if o.Success? {
      var p := ParsePolicy(DecodeJson(env, msg).value).value;
      UpdateCounted(s.users, p.owner, Lookup(s.users, p.owner).(policy := Some(p)), o, c);
    }
    hide Counted;
  }

  lemma ConfirmDepositCounted(env: Env, s: EnclaveState, msg: string, c: Counter)
    ensures var (t, o) := ApplyConfirmDeposit(env, s, msg);
      Counted(s.users, t.users, UserKey(env, ConfirmDeposit(msg)), o, c)
  {
    hide DecodeUser, Fdc.ParseConfirmDeposit, Fdc.ValidatePaymentProof;
    var (t, o) := ApplyConfirmDeposit(env, s, msg);
    var decoded := DecodeUser(env, msg);
    if decoded.Err? {
      UnchangedCounted(s.users, None, o, c);
    } else {
      var user := decoded.value.1;
      if o.Success? {
        var received := Fdc.ParseConfirmDeposit(decoded.value.0).value.proof.receivedAmount;
        DecimalRoundTrip(received);
        UpdateCounted(s.users, user, t.users[ToLower(user)], o, c);
      } else {
        TouchCounted(s.users, user, o, c);
      }
    }
    hide Counted;
  }

  /** Up to its await, a vault action counts its refusal or nothing. */
  lemma VaultActionCounted(env: Env, s: EnclaveState, kind: IntentKind, msg: string, c: Counter)
    ensures var (t, p) := BeginVaultAction(env, s, kind, msg);
      && Counted(s.users, t.users, UserKey(env, VaultAction(kind, msg)),
                 if p.Done? then p.outcome else Failed(SigningFailed), c)
      && (p.Await? ==> p.k.Signing? && UserKey(env, VaultAction(kind, msg)) == Some(ToLower(p.k.user)))
  {
    hide DecodeUser, ParseVaultIntent, EvaluateIntent, ActionDigest, W.Derive;
    var (t, p) := BeginVaultAction(env, s, kind, msg);
    var o := if p.Done? then p.outcome else Failed(SigningFailed);
    var decoded := DecodeUser(env, msg);
    if decoded.Err? {
      UnchangedCounted(s.users, None, o, c);
    } else {
      var user := decoded.value.1;
      if o.Failed? && o.error.Refused? {
        UpdateCounted(s.users, user, t.users[ToLower(user)], o, c);
      } else {
        TouchCounted(s.users, user, o, c);
      }
    }
    hide Counted;
  }

  lemma ResumeCounted(env: Env, s: EnclaveState, k: Continuation, awaited: Option<bytes>, c: Counter)
    requires k.Signing?
    ensures var (t, o) := Resume(env, s, k, awaited);
      Counted(s.users, t.users, Some(ToLower(k.user)), o, c)
  {
    hide DestinationOf, ToDecimal;
    var (t, o) := Resume(env, s, k, awaited);
    if awaited.None? {
      UnchangedCounted(s.users, Some(ToLower(k.user)), o, c);
    } else {
      UpdateCounted(s.users, k.user, t.users[ToLower(k.user)], o, c);
    }
    hide Counted;
  }

  lemma CountedTwice(a: Users, b: Users, d: Users, k: string, o1: Outcome, o2: Outcome, c: Counter)
    requires Counted(a, b, Some(k), o1, c) && Counted(b, d, Some(k), o2, c)
    requires Gain(o1, c) == 0
    ensures Counted(a, d, Some(k), o2, c)
  {
    hide Get, Gain, Entry;
  }

  lemma ApplyCounted(env: Env, s: EnclaveState, e: Event, c: Counter)
    ensures var (t, o) := Apply(env, s, e.req, e.awaited);
      Counted(s.users, t.users, UserKey(env, e.req), o, c)
  {
    hide BeginVaultAction, ApplyConfirmDeposit, ApplyCreateWallet, ApplySetPolicy, Counted;
    match e.req {
      case CreateWallet(msg) => CreateWalletCounted(env, s, msg, c);
      case SetPolicy(msg) => SetPolicyCounted(env, s, msg, c);
      case ConfirmDeposit(msg) => ConfirmDepositCounted(env, s, msg, c);
      case VaultAction(kind, msg) =>
        hide Resume;
        VaultActionCounted(env, s, kind, msg, c);
        var (s', p) := Begin(env, s, e.req);
        if p.Await? {
          ResumeCounted(env, s', p.k, e.awaited, c);
          var (t, o) := Resume(env, s', p.k, e.awaited);
          CountedTwice(s.users, s'.users, t.users, ToLower(p.k.user), Failed(SigningFailed), o, c);
        }
      case UpdateKey(_) =>
        var (t, o) := Apply(env, s, e.req, e.awaited);
        UnchangedCounted(s.users, None, o, c);
    }
  }

  // ---- over a run -----------------------------------------------------------------

  function Census(outcomes: seq<Outcome>, c: Counter): nat {
    if outcomes == [] then 0
    else Census(outcomes[..|outcomes| - 1], c) + Gain(outcomes[|outcomes| - 1], c)
  }

  lemma TotalMoves(before: Users, after: Users, key: Option<string>, o: Outcome, c: Counter)
    requires Counted(before, after, key, o, c)
    ensures Total(after, c) == Total(before, c) + Gain(o, c)
  {
    hide Gain;
    if key.Some? && key.value in after {
      var k := key.value;
      TotalFromAny(after, k, c);
      assert after - {k} == before - {k};
      if k in before {
        TotalFromAny(before, k, c);
      } else {
        assert before - {k} == before;
      }
      hide Total;
    } else {
      assert after == before;
    }
  }

  /** What reportState sums up is the number of signed, refused and deposit-accepted answers of the run. */
  lemma {:induction false} CensusIsExact(env: Env, trace: seq<Event>, c: Counter)
    ensures var (s, outcomes) := Run(env, INITIAL, trace); Total(s.users, c) == Census(outcomes, c)
  {
    hide Apply, Gain;
    if trace != [] {
      var n := |trace| - 1;
      CensusIsExact(env, trace[..n], c);
      var (s, outcomes) := Run(env, INITIAL, trace[..n]);
      var (t, all) := Run(env, INITIAL, trace);
      assert all[..n] == outcomes;
      ApplyCounted(env, s, trace[n], c);
      TotalMoves(s.users, t.users, UserKey(env, trace[n].req), all[n], c);
      hide Counted, UserKey;
    }
  }

  lemma UserEntryMoves(env: Env, u: string, s: EnclaveState, e: Event, c: Counter)
    ensures var (t, o) := Apply(env, s, e.req, e.awaited);
      Get(Entry(t.users, u), c) == Get(Entry(s.users, u), c) + (if Mine(env, u, e) then Gain(o, c) else 0)
  {
    hide Apply, UserKey, Get, Gain;
    ApplyCounted(env, s, e, c);
  }

  /** Each counter of a user is what the answers to that user's own requests add up to. */
  lemma {:induction false} UserBooksBalance(env: Env, u: string, trace: seq<Event>, c: Counter)
    ensures var (s, outcomes) := Run(env, INITIAL, trace);
      Get(Entry(s.users, u), c) == Census(Answers(env, u, trace, outcomes), c)
  {
    hide Apply, Mine, Gain;
    if trace != [] {
      var n := |trace| - 1;
      UserBooksBalance(env, u, trace[..n], c);
      var (s, outcomes) := Run(env, INITIAL, trace[..n]);
      var (t, all) := Run(env, INITIAL, trace);
      assert all[..n] == outcomes;
      UserEntryMoves(env, u, s, trace[n], c);
      var mine := Answers(env, u, trace[..n], outcomes);
      if Mine(env, u, trace[n]) {
        assert Answers(env, u, trace, all) == mine + [all[n]];
        assert (mine + [all[n]])[..|mine|] == mine;
      } else {
        assert Answers(env, u, trace, all) == mine;
      }
      hide Entry, Get;
    }
  }

  // ---- deposits ---------------------------------------------------------------------

  /** The minimum that an accepted request asked for. */
  function MinimumOf(env: Env, e: Event, o: Outcome): nat {
    if !(o.Success? && o.reply.DepositConfirmed?) then 0
    else
      var payload := DecodeJson(env, e.req.msg);
      if payload.Err? then 0
      else
        var d := Fdc.ParseConfirmDeposit(payload.value);
        if d.Err? then 0 else d.value.expected.minAmount
  }

  /** The sum of the minimums of the user's accepted deposits. */
  function Minimums(env: Env, u: string, trace: seq<Event>, outcomes: seq<Outcome>): nat
    requires |trace| == |outcomes|
  {
    if trace == [] then 0
    else
      var n := |trace| - 1;
      Minimums(env, u, trace[..n], outcomes[..n])
      + (if Mine(env, u, trace[n]) then MinimumOf(env, trace[n], outcomes[n]) else 0)
  }

  lemma OnlyDepositsConfirm(env: Env, s: EnclaveState, e: Event)
    requires var o := Apply(env, s, e.req, e.awaited).1; o.Success? && o.reply.DepositConfirmed?
    ensures e.req.ConfirmDeposit?
  {
    hide ParseVaultIntent, ParsePolicy, EvaluateIntent, ActionDigest, W.Derive, DecodeUser, DecodeJson;
    hide DestinationOf, ToDecimal, ApplyConfirmDeposit;
  }

  lemma DepositMeetsMinimum(env: Env, s: EnclaveState, msg: string)
    ensures var o := ApplyConfirmDeposit(env, s, msg).1;
      MinimumOf(env, Event(ConfirmDeposit(msg), None), o) <= Gain(o, ReceivedDrops)
  {
    var d := DecodeUser(env, msg);
    if d.Ok? && Fdc.ParseConfirmDeposit(d.value.0).Ok? {
      DecimalRoundTrip(Fdc.ParseConfirmDeposit(d.value.0).value.proof.receivedAmount);
    }
    hide DecodeJson, ReqUser, ToDecimal, DecimalValue, Lookup, ToLower, Fdc.ParseConfirmDeposit;
  }

  lemma AcceptedMeetsMinimum(env: Env, s: EnclaveState, e: Event)
    ensures var o := Apply(env, s, e.req, e.awaited).1; MinimumOf(env, e, o) <= Gain(o, ReceivedDrops)
  {
    var o := Apply(env, s, e.req, e.awaited).1;
    if o.Success? && o.reply.DepositConfirmed? {
      OnlyDepositsConfirm(env, s, e);
      DepositMeetsMinimum(env, s, e.req.msg);
      hide ApplyConfirmDeposit, Gain;
    } else {
      hide Apply;
    }
  }

  /** A user's confirmed drops are at least the sum of the minimums of that user's accepted deposits. */
  lemma {:induction false} DropsCoverMinimums(env: Env, u: string, trace: seq<Event>)
    ensures var (s, outcomes) := Run(env, INITIAL, trace);
      Entry(s.users, u).confirmedDrops >= Minimums(env, u, trace, outcomes)
  {
    hide Apply, Mine, MinimumOf, Gain;
    if trace != [] {
      var n := |trace| - 1;
      DropsCoverMinimums(env, u, trace[..n]);
      var (s, outcomes) := Run(env, INITIAL, trace[..n]);
      var (t, all) := Run(env, INITIAL, trace);
      assert all[..n] == outcomes;
      UserEntryMoves(env, u, s, trace[n], ReceivedDrops);
      AcceptedMeetsMinimum(env, s, trace[n]);
      hide Entry;
    }
  }

  // ---- failures ---------------------------------------------------------------------

  lemma FailureKeepsPolicy(env: Env, s: EnclaveState, e: Event, u: string)
    requires !Apply(env, s, e.req, e.awaited).1.Success?
    ensures var t := Apply(env, s, e.req, e.awaited).0;
      t.seed == s.seed && Entry(t.users, u).policy == Entry(s.users, u).policy
  {
    hide ParseVaultIntent, ParsePolicy, EvaluateIntent, ActionDigest, W.Derive, DecodeUser, DecodeJson;
    hide DestinationOf, ToDecimal, Fdc.ParseConfirmDeposit, Fdc.ValidatePaymentProof;
  }

  /** A request that does not succeed moves nothing but the refused count of its own user, and that only by refusing. */
  lemma FailureMovesNothing(env: Env, s: EnclaveState, e: Event, u: string)
    requires !Apply(env, s, e.req, e.awaited).1.Success?
    ensures var (t, o) := Apply(env, s, e.req, e.awaited);
      && t.seed == s.seed
      && var refusals := if Mine(env, u, e) && o.Failed? && o.error.Refused? then 1 else 0;
         var a := Entry(s.users, u);
         Entry(t.users, u) == a.(actionsRefused := a.actionsRefused + refusals)
  {
    UserEntryMoves(env, u, s, e, SignedActions);
    UserEntryMoves(env, u, s, e, RefusedActions);
    UserEntryMoves(env, u, s, e, ConfirmedDeposits);
    UserEntryMoves(env, u, s, e, ReceivedDrops);
    FailureKeepsPolicy(env, s, e, u);
    hide Apply, Mine, Entry;
  }
}
