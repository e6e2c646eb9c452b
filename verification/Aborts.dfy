/**
 When a handler's promise rejects: the digest is computed outside the handler's try, and it throws on an amount that is
 no uint256. Nothing catches the rejection, so when it can happen, and how a policy rules it out, are stated exactly.
 */
module Aborts {
  import opened Common
  import opened PolicyGuard
  import opened Crypto
  import opened Codec
  import opened Handlers
  import opened HandlerRuns
  import AE = AsyncEnclave
  import Fdc
  import S = Server
  import W = Wallet

  /** The payload decodes, a policy and a seed are set, the intent parses, the guard allows it, and it does not fit. */
  predicate ApprovedButTooLarge(env: Env, s: EnclaveState, kind: IntentKind, msg: string) {
    var decoded := DecodeUser(env, msg);
    decoded.Ok? && s.seed.Some?
    && var (policy, intent) := (Lookup(s.users, decoded.value.1).policy, ParseVaultIntent(kind, decoded.value.0));
       policy.Some? && intent.Ok? && EvaluateIntent(policy.value, intent.value).allow && intent.value.amount >= TWO_256
  }

  lemma DigestThrowsOnLarge(c: CryptoSuite, kind: IntentKind, payload: Json)
    requires ParseVaultIntent(kind, payload).Ok?
    ensures var i := ParseVaultIntent(kind, payload).value; ActionDigest(c, i).None? <==> i.amount >= TWO_256
  {
    ParsedIntentIsWellFormed(kind, payload);
    ActionDigestIsVaultDigest(c, ParseVaultIntent(kind, payload).value);
    hide ParseVaultIntent, ActionDigest;
  }

  /** A handler aborts exactly on an approved vault action whose amount is no uint256, whatever the await produces. */
  lemma AbortsExactly(env: Env, s: EnclaveState, e: Event)
    ensures Apply(env, s, e.req, e.awaited).1 == Aborted
       <==> e.req.VaultAction? && ApprovedButTooLarge(env, s, e.req.kind, e.req.msg)
  {
    hide ParseVaultIntent, EvaluateIntent, ActionDigest, W.Derive, DecodeUser, DecodeJson, ParsePolicy;
    hide DestinationOf, ToDecimal, Fdc.ParseConfirmDeposit, Fdc.ValidatePaymentProof;
    if e.req.VaultAction? && DecodeUser(env, e.req.msg).Ok? {
      var payload := DecodeUser(env, e.req.msg).value.0;
      if ParseVaultIntent(e.req.kind, payload).Ok? {
        DigestThrowsOnLarge(env.crypto, e.req.kind, payload);
      }
    }
  }

  /** An aborted handler has created the user's entry at most: no counter, policy or seed moved. */
  lemma AbortChangesNothing(env: Env, s: EnclaveState, e: Event, u: string)
    requires Apply(env, s, e.req, e.awaited).1 == Aborted
    ensures var t := Apply(env, s, e.req, e.awaited).0; t.seed == s.seed && Lookup(t.users, u) == Lookup(s.users, u)
  {
    AbortsExactly(env, s, e);
    hide ParseVaultIntent, EvaluateIntent, ActionDigest, W.Derive, DecodeUser;
  }

  // ---- which policies allow it ------------------------------------------------------------------

  /** The largest withdrawal that a policy's guard approves. */
  function LargestWithdrawal(p: Policy): Intent {
    Intent(Withdraw, p.asset, p.maxTxAmount, None, Some(p.returnAddress), true, None, None, None)
  }

  /** A policy approves some intent whose digest throws if and only if its cap is no uint256. */
  lemma CapDecidesAborts(c: CryptoSuite, p: Policy)
    requires WellFormedPolicy(p)
    ensures (exists i :: WellFormedIntent(i) && EvaluateIntent(p, i).allow && ActionDigest(c, i) == None)
       <==> p.maxTxAmount >= TWO_256
  {
    var largest := LargestWithdrawal(p);
    forall i | WellFormedIntent(i)
      ensures ActionDigest(c, i) == None <==> i.amount >= TWO_256
    {
      ActionDigestIsVaultDigest(c, i);
      hide ActionDigest;
    }
    if p.maxTxAmount >= TWO_256 {
      assert p.asset != "" && p.returnAddress != "";
      assert WellFormedIntent(largest) && EvaluateIntent(p, largest).allow && ActionDigest(c, largest) == None;
    }
    hide ActionDigest, WellFormedIntent;
  }

  /** A SET_POLICY request that carries a policy carries one whose cap is a uint256. */
  predicate SetsSmallCap(env: Env, req: Request) {
    req.SetPolicy? && DecodeJson(env, req.msg).Ok? && ParsePolicy(DecodeJson(env, req.msg).value).Ok? ==>
      ParsePolicy(DecodeJson(env, req.msg).value).value.maxTxAmount < TWO_256
  }

  ghost predicate SmallCaps(users: Users) {
    forall k :: k in users && users[k].policy.Some? ==> users[k].policy.value.maxTxAmount < TWO_256
  }

  lemma SetPolicyKeepsSmallCaps(env: Env, s: EnclaveState, msg: string)
    requires SmallCaps(s.users) && SetsSmallCap(env, SetPolicy(msg))
    ensures SmallCaps(ApplySetPolicy(env, s, msg).0.users)
  {
    hide ParsePolicy, DecodeJson;
  }

  lemma SamePoliciesKeepSmallCaps(before: Users, after: Users)
    requires SmallCaps(before) && KeepsPolicies(before, after)
    ensures SmallCaps(after)
  {
    forall k | k in after && after[k].policy.Some?
      ensures after[k].policy.value.maxTxAmount < TWO_256
    {
      assert PolicyOf(after, k) == PolicyOf(before, k);
    }
  }

  lemma ApplyKeepsSmallCaps(env: Env, s: EnclaveState, e: Event)
    requires SmallCaps(s.users) && SetsSmallCap(env, e.req)
    ensures SmallCaps(Apply(env, s, e.req, e.awaited).0.users)
  {
    if e.req.SetPolicy? {
      hide ApplySetPolicy;
      SetPolicyKeepsSmallCaps(env, s, e.req.msg);
    } else {
      hide Apply, KeepsPolicies, SmallCaps;
      ApplyKeepsPolicies(env, s, e);
      SamePoliciesKeepSmallCaps(s.users, Apply(env, s, e.req, e.awaited).0.users);
    }
  }

  lemma {:induction false} RunKeepsSmallCaps(env: Env, trace: seq<Event>)
    requires forall k :: 0 <= k < |trace| ==> SetsSmallCap(env, trace[k].req)
    ensures SmallCaps(Run(env, INITIAL, trace).0.users)
  {
    hide Apply, SetsSmallCap;
    if trace != [] {
      RunKeepsSmallCaps(env, trace[..|trace| - 1]);
      ApplyKeepsSmallCaps(env, Run(env, INITIAL, trace[..|trace| - 1]).0, trace[|trace| - 1]);
    }
  }

  lemma SmallCapsDoNotAbort(env: Env, s: EnclaveState, e: Event)
    requires SmallCaps(s.users)
    ensures Apply(env, s, e.req, e.awaited).1 != Aborted
  {
    AbortsExactly(env, s, e);
    hide Apply, ParseVaultIntent, DecodeUser;
  }

  /** If no SET_POLICY of a run carries a larger cap, no handler of the run aborts. */
  lemma SmallCapsNeverAbort(env: Env, trace: seq<Event>)
    requires forall k :: 0 <= k < |trace| ==> SetsSmallCap(env, trace[k].req)
    ensures Aborted !in Run(env, INITIAL, trace).1
  {
    hide Apply, SetsSmallCap, Run;
    forall k | 0 <= k < |trace|
      ensures Run(env, INITIAL, trace).1[k] != Aborted
    {
      OutcomeAt(env, trace, k);
      RunKeepsSmallCaps(env, trace[..k]);
      SmallCapsDoNotAbort(env, Before(env, trace, k), trace[k]);
    }
  }

  // ---- behind the server ----------------------------------------------------------------------------

  /** For any interleaving, the promises that the server hands out reject exactly for the calls that abort. */
  lemma ServedRejectionIsAbort(env: Env, events: seq<AE.AsyncEvent>, i: nat)
    requires i < |AE.ServerRun(env, events).settled|
    ensures i < |AE.Calls(events)| == |AE.ServerRun(env, events).inputs|
    ensures var call, before := AE.Calls(events)[i], Run(env, INITIAL, AE.HandledBefore(env, events, i)).0;
      AE.ServerRun(env, events).settled[i].1 == S.Throw
      <==> call.Handle? && call.req.VaultAction? && ApprovedButTooLarge(env, before, call.req.kind, call.req.msg)
  {
    hide AE.ServerRun, AE.OneAtATime, Run, Apply, ApprovedButTooLarge;
    AE.SettledAnswer(env, events, i);
    var call, before := AE.Calls(events)[i], Run(env, INITIAL, AE.HandledBefore(env, events, i)).0;
    if call.Handle? {
      AbortsExactly(env, before, Event(call.req, AE.FirstInput(AE.ServerRun(env, events).inputs[i])));
    }
  }

  lemma {:induction false} HandledAreCalls(env: Env, calls: seq<AE.Call>, awaited: seq<Option<bytes>>)
    requires |calls| == |awaited|
    requires forall c :: c in calls && c.Handle? ==> SetsSmallCap(env, c.req)
    ensures forall e :: e in AE.Handled(calls, awaited) ==> SetsSmallCap(env, e.req)
  {
    hide SetsSmallCap;
    if calls != [] {
      var n := |calls| - 1;
      assert forall c :: c in calls[..n] ==> c in calls;
      HandledAreCalls(env, calls[..n], awaited[..n]);
      assert calls[n] in calls;
    }
  }

  /** If no SET_POLICY that reaches the server carries a larger cap, no promise of the server rejects. */
  lemma SmallCapsNeverReject(env: Env, events: seq<AE.AsyncEvent>, i: nat)
    requires forall c :: c in AE.Calls(events) && c.Handle? ==> SetsSmallCap(env, c.req)
    requires i < |AE.ServerRun(env, events).settled|
    ensures AE.ServerRun(env, events).settled[i].1 != S.Throw
  {
    hide AE.ServerRun, Run, Apply, SetsSmallCap, AE.Calls;
    ServedRejectionIsAbort(env, events, i);
    var calls, awaited := AE.Calls(events)[..i], AE.FirstInputs(AE.ServerRun(env, events).inputs[..i]);
    forall c | c in calls && c.Handle?
      ensures SetsSmallCap(env, c.req)
    {
      assert c in AE.Calls(events);
    }
    HandledAreCalls(env, calls, awaited);
    var trace := AE.HandledBefore(env, events, i);
    forall k | 0 <= k < |trace|
      ensures SetsSmallCap(env, trace[k].req)
    {
      assert trace[k] in trace;
    }
    RunKeepsSmallCaps(env, trace);
    var call, before := AE.Calls(events)[i], Run(env, INITIAL, trace).0;
    if call.Handle? {
      SmallCapsDoNotAbort(env, before, Event(call.req, None));
      AbortsExactly(env, before, Event(call.req, None));
    }
    hide ApprovedButTooLarge, SmallCaps;
  }
}
