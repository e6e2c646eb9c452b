/** The concentration cap over whole runs of the enclave, for requests that report the portfolio as it is. */
module Concentration {
  import opened Common
  import opened Encoding
  import opened PolicyGuard
  import opened Codec
  import opened Handlers
  import opened HandlerRuns
  import opened Tenants
  import opened Bookkeeping
  import opened Signing
  import W = Wallet

  /** The amount that an answer moves into a venue. */
  function MovedInto(o: Outcome, venue: Address): nat {
    if o.Success? && o.reply.Signed? && o.reply.kind != Withdraw && IsAddress(o.reply.destination)
       && AddressBytes(o.reply.destination) == venue then SignedAmount(o)
    else 0
  }

  function SignedInto(answers: seq<Outcome>, venue: Address): nat {
    if answers == [] then 0
    else SignedInto(answers[..|answers| - 1], venue) + MovedInto(answers[|answers| - 1], venue)
  }

  /** What the venue holds: its balance before the run, and what was signed into it since. */
  function Holding(env: Env, u: string, trace: seq<Event>, initial: Address -> nat, venue: Address): nat {
    initial(venue) + SignedInto(Answers(env, u, trace, Run(env, INITIAL, trace).1), venue)
  }

  /** If the request decodes to a venue intent, that intent reports the portfolio value and the venue's holding. */
  ghost predicate Reports(env: Env, e: Event, portfolio: nat, holding: Address -> nat) {
    e.req.VaultAction? && DecodeUser(env, e.req.msg).Ok? ==>
      var i := ParseVaultIntent(e.req.kind, DecodeUser(env, e.req.msg).value.0);
      i.Ok? && i.value.venue.Some? && IsAddress(i.value.venue.value) ==>
        && i.value.portfolioValue == Some(portfolio)
        && i.value.venueBalance == Some(holding(AddressBytes(i.value.venue.value)))
  }

  /** Each of the user's requests is accurate at its moment. */
  ghost predicate AccurateReports(env: Env, u: string, trace: seq<Event>, portfolio: nat, initial: Address -> nat) {
    forall k :: 0 <= k < |trace| && Mine(env, u, trace[k]) ==>
      Reports(env, trace[k], portfolio, v => Holding(env, u, trace[..k], initial, v))
  }

  /** No policy that is in force for the user during the run allows a larger share. */
  ghost predicate ShareCappedBy(env: Env, u: string, trace: seq<Event>, bps: int) {
    forall k :: 0 <= k < |trace| ==>
      var p := Entry(Before(env, trace, k).users, u).policy; p.Some? ==> p.value.maxVenueBps <= bps
  }

  /** Both hypotheses hold of the run without its last event. */
  lemma HypothesesOfPrefix(env: Env, u: string, trace: seq<Event>, portfolio: nat, initial: Address -> nat, bps: int)
    requires trace != [] && AccurateReports(env, u, trace, portfolio, initial) && ShareCappedBy(env, u, trace, bps)
    ensures AccurateReports(env, u, trace[..|trace| - 1], portfolio, initial)
    ensures ShareCappedBy(env, u, trace[..|trace| - 1], bps)
  {
    hide Run, Reports, Holding, Mine;
    var n := |trace| - 1;
    forall k | 0 <= k < n
      ensures Before(env, trace[..n], k) == Before(env, trace, k)
    {
      assert trace[..n][..k] == trace[..k];
    }
    forall k | 0 <= k < n && Mine(env, u, trace[..n][k])
      ensures Reports(env, trace[..n][k], portfolio, v => Holding(env, u, trace[..n][..k], initial, v))
    {
      assert Mine(env, u, trace[k]);
      assert trace[..n][..k] == trace[..k];
    }
  }

  /** A vault action that stops to sign stops with the intent and the user of its payload. */
  lemma SigningWhatWasParsed(env: Env, s: EnclaveState, kind: IntentKind, msg: string)
    requires BeginVaultAction(env, s, kind, msg).1.Await?
    ensures var k := BeginVaultAction(env, s, kind, msg).1.k;
      && k.Signing? && DecodeUser(env, msg).Ok? && k.user == DecodeUser(env, msg).value.1
      && ParseVaultIntent(kind, DecodeUser(env, msg).value.0) == Ok(k.intent)
  {
    hide ParseVaultIntent, EvaluateIntent, ActionDigest, W.Derive, DecodeUser;
  }

  lemma SignedAnswerAwaited(env: Env, s: EnclaveState, kind: IntentKind, msg: string, awaited: Option<bytes>)
    requires var o := Apply(env, s, VaultAction(kind, msg), awaited).1; o.Success? && o.reply.Signed?
    ensures BeginVaultAction(env, s, kind, msg).1.Await?
  {
    hide ParseVaultIntent, EvaluateIntent, ActionDigest, W.Derive, DecodeUser, DestinationOf, ToDecimal;
  }

  /** An answer that moves something into a venue answers a decoded intent for that venue, approved as it is. */
  lemma MoveWasApproved(env: Env, s: EnclaveState, e: Event, venue: Address)
    requires ValidState(s) && MovedInto(Apply(env, s, e.req, e.awaited).1, venue) > 0
    ensures e.req.VaultAction? && DecodeUser(env, e.req.msg).Ok?
    ensures var o := Apply(env, s, e.req, e.awaited).1;
      var (payload, user) := DecodeUser(env, e.req.msg).value;
      var i := ParseVaultIntent(e.req.kind, payload);
      && i.Ok? && i.value.kind != Withdraw && WellFormedIntent(i.value)
      && AddressBytes(i.value.venue.value) == venue && MovedInto(o, venue) == i.value.amount
      && var p := Lookup(s.users, user).policy; p.Some? && EvaluateIntent(p.value, i.value).allow
  {
    var o := Apply(env, s, e.req, e.awaited).1;
    hide BeginVaultAction, EvaluateIntent, ParseVaultIntent, DecodeUser, DecimalValue, ToDecimal, Sound;
    hide AddressBytes, Run;
    assert e.req.VaultAction? by { SignedRequestIsSound(env, s, e); hide Apply; }
    SignedAnswerAwaited(env, s, e.req.kind, e.req.msg, e.awaited);
    BeforeSigning(env, s, e.req.kind, e.req.msg);
    SigningWhatWasParsed(env, s, e.req.kind, e.req.msg);
    DecimalRoundTrip(BeginVaultAction(env, s, e.req.kind, e.req.msg).1.k.intent.amount);
  }

  lemma ShareGrows(portfolio: nat, bps: int, larger: int)
    requires bps <= larger
    ensures portfolio * bps <= portfolio * larger
  {
  }

  /** One answer, given an accurate report, keeps its venue within the share. */
  lemma MoveKeepsShare(env: Env, u: string, s: EnclaveState, e: Event, venue: Address, portfolio: nat,
                       holding: Address -> nat, bps: int)
    requires ValidState(s) && Mine(env, u, e) && Reports(env, e, portfolio, holding)
    requires portfolio > 0 && bps < 10000
    requires var p := Entry(s.users, u).policy; p.Some? ==> p.value.maxVenueBps <= bps
    ensures var moved := MovedInto(Apply(env, s, e.req, e.awaited).1, venue);
      moved > 0 ==> 10000 * (holding(venue) + moved) <= portfolio * bps
  {
    hide Apply, MovedInto, ParseVaultIntent, DecodeUser, AddressBytes, ValidState;
    if MovedInto(Apply(env, s, e.req, e.awaited).1, venue) > 0 {
      MoveWasApproved(env, s, e, venue);
      var (payload, user) := DecodeUser(env, e.req.msg).value;
      var i := ParseVaultIntent(e.req.kind, payload).value;
      var p := Lookup(s.users, user).policy.value;
      assert ToLower(user) == u;
      GuardIsExact(p, i);
      ShareGrows(portfolio, p.maxVenueBps, bps);
      hide EvaluateIntent;
    }
  }

  /**
   Along any run of the enclave in which the user's requests report a fixed portfolio value and the venues' holdings,
   every venue that the enclave signed into for the user holds at most the share of the portfolio that the policies
   allowed, however the other users' requests and the policy updates are interleaved.
   */
  lemma {:induction false} SignedSharesStayCapped(env: Env, u: string, trace: seq<Event>, venue: Address,
                                                  portfolio: nat, initial: Address -> nat, bps: int)
    requires AccurateReports(env, u, trace, portfolio, initial) && ShareCappedBy(env, u, trace, bps)
    requires portfolio > 0 && bps < 10000
    ensures SignedInto(Answers(env, u, trace, Run(env, INITIAL, trace).1), venue) > 0 ==>
      10000 * Holding(env, u, trace, initial, venue) <= portfolio * bps
  {
    hide Apply, Mine, MovedInto, ValidState, Reports, AccurateReports, ShareCappedBy;
    if trace != [] {
      var n := |trace| - 1;
      HypothesesOfPrefix(env, u, trace, portfolio, initial, bps);
      SignedSharesStayCapped(env, u, trace[..n], venue, portfolio, initial, bps);
      var (s, outcomes) := Run(env, INITIAL, trace[..n]);
      var all := Run(env, INITIAL, trace).1;
      assert all[..n] == outcomes;
      var mine := Answers(env, u, trace[..n], outcomes);
      if Mine(env, u, trace[n]) {
        assert Answers(env, u, trace, all) == mine + [all[n]];
        assert (mine + [all[n]])[..|mine|] == mine;
        RunKeepsValid(env, trace[..n]);
        LastHypotheses(env, u, trace, portfolio, initial, bps);
        MoveKeepsShare(env, u, s, trace[n], venue, portfolio, v => Holding(env, u, trace[..n], initial, v), bps);
      } else {
        assert Answers(env, u, trace, all) == mine;
      }
    }
  }

  /** Both hypotheses, of the last event. */
  lemma LastHypotheses(env: Env, u: string, trace: seq<Event>, portfolio: nat, initial: Address -> nat, bps: int)
    requires trace != [] && AccurateReports(env, u, trace, portfolio, initial) && ShareCappedBy(env, u, trace, bps)
    ensures var n := |trace| - 1;
      && (Mine(env, u, trace[n]) ==>
            Reports(env, trace[n], portfolio, v => Holding(env, u, trace[..n], initial, v)))
      && var p := Entry(Run(env, INITIAL, trace[..n]).0.users, u).policy; p.Some? ==> p.value.maxVenueBps <= bps
  {
    hide Run, Reports, Holding, Mine, Entry;
    assert Before(env, trace, |trace| - 1) == Run(env, INITIAL, trace[..|trace| - 1]).0;
  }
}
