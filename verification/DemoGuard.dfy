/**
 Model of app/src/lib/guard.ts, the demo's guard, which claims the same rules and the same refusal
 codes as the enclave's. Its amounts are JavaScript numbers and its division is exact, so amounts
 are reals here.
 */
module DemoGuard {
  import opened Common
  import P = PolicyGuard

  datatype Venue = Venue(address: string, name: string, apy: real)

  datatype DemoPolicy = DemoPolicy(
    returnAddress: string,
    riskLevel: P.RiskLevel,
    asset: string,
    allowedVenues: seq<Venue>,
    maxVenueBps: real,
    maxTxAmount: real,
    minHealthFactorBps: real)

  datatype DemoIntent = DemoIntent(
    kind: P.IntentKind,
    asset: string,
    amount: real,
    venue: Option<string>,
    to: Option<string>,
    userAuthorized: bool,
    portfolioValue: Option<real>,
    venueBalance: Option<real>,
    projectedHealthFactorBps: Option<real>)

  predicate IsAllowedVenue(policy: DemoPolicy, venue: Option<string>) {
    venue.Some? && venue.value != "" && exists v :: v in policy.allowedVenues && P.EqAddr(Some(v.address), venue)
  }

  function Evaluate(policy: DemoPolicy, intent: DemoIntent): P.Decision {
    if intent.amount <= 0.0 then P.Deny(P.ZERO_AMOUNT)
    else if !P.EqAddr(Some(intent.asset), Some(policy.asset)) then P.Deny(P.ASSET_NOT_ALLOWED)
    else if intent.amount > policy.maxTxAmount then P.Deny(P.AMOUNT_EXCEEDS_CAP)
    else match intent.kind
      case Withdraw =>
        if !intent.userAuthorized then P.Deny(P.NEEDS_USER_SIGNATURE)
        else if !P.EqAddr(intent.to, Some(policy.returnAddress)) then P.Deny(P.WITHDRAW_NON_RETURN)
        else P.ALLOW
      case _ =>
        if !IsAllowedVenue(policy, intent.venue) then P.Deny(P.DEST_NOT_ALLOWED)
        else if policy.maxVenueBps < 10000.0 && ExceedsCap(policy, intent) then P.Deny(P.VENUE_CONCENTRATION)
        else if intent.kind == P.Rebalance && intent.projectedHealthFactorBps.Some?
                && intent.projectedHealthFactorBps.value < policy.minHealthFactorBps then
          P.Deny(P.HEALTH_FACTOR)
        else P.ALLOW
  }

  /** An absent portfolio value and a zero one are both falsy. */
  predicate ExceedsCap(policy: DemoPolicy, intent: DemoIntent) {
    && intent.portfolioValue.Some? && intent.portfolioValue.value > 0.0
    && (if intent.venueBalance.Some? then intent.venueBalance.value else 0.0) + intent.amount
         > (intent.portfolioValue.value * policy.maxVenueBps) / 10000.0
  }

  // ---- agreement with the enclave's guard ------------------------------------------

  function OptReal(o: Option<int>): Option<real> {
    if o.Some? then Some(o.value as real) else None
  }

  /** The demo policy that says what an enclave policy says. */
  predicate Corresponds(d: DemoPolicy, p: P.Policy) {
    && d.returnAddress == p.returnAddress && d.asset == p.asset
    && |d.allowedVenues| == |p.allowedVenues|
    && (forall k :: 0 <= k < |p.allowedVenues| ==> d.allowedVenues[k].address == p.allowedVenues[k])
    && d.maxVenueBps == p.maxVenueBps as real
    && d.maxTxAmount == p.maxTxAmount as real
    && d.minHealthFactorBps == p.minHealthFactorBps as real
  }

  function DemoOf(i: P.Intent): DemoIntent {
    DemoIntent(i.kind, i.asset, i.amount as real, i.venue, i.to, i.userAuthorized,
               OptReal(i.portfolioValue), OptReal(i.venueBalance), OptReal(i.projectedHealthFactorBps))
  }

  lemma SameAllowlist(d: DemoPolicy, p: P.Policy, venue: Option<string>)
    requires Corresponds(d, p)
    ensures IsAllowedVenue(d, venue) <==> P.IsAllowedVenue(p.allowedVenues, venue)
  {
    if P.IsAllowedVenue(p.allowedVenues, venue) {
      var k :| 0 <= k < |p.allowedVenues| && P.EqAddr(Some(p.allowedVenues[k]), venue);
      assert d.allowedVenues[k] in d.allowedVenues;
    }
  }

  lemma ExactDivision(projected: int, cap: int)
    ensures projected as real > (cap as real) / 10000.0 <==> 10000 * projected > cap
  {
    assert projected as real > (cap as real) / 10000.0 <==> 10000.0 * projected as real > cap as real;
    assert (10000 * projected) as real == 10000.0 * projected as real;
  }

  lemma ProductAsReal(a: int, b: int)
    ensures (a * b) as real == a as real * b as real
  {
  }

  /** A negative cap with a remainder, met exactly by a projection that is therefore not positive. */
  predicate OnTruncatedNegativeCap(p: P.Policy, i: P.Intent) {
    && i.kind != P.Withdraw
    && 0 < i.amount <= p.maxTxAmount && P.EqAddr(Some(i.asset), Some(p.asset))
    && P.IsAllowedVenue(p.allowedVenues, i.venue)
    && P.CapApplies(p, i)
    && var cap := i.portfolioValue.value * p.maxVenueBps;
       P.TruncatedUpward(cap) && P.Projected(i) == P.TruncDiv(cap, 10000)
  }

  lemma SameConcentrationTest(d: DemoPolicy, p: P.Policy, i: P.Intent)
    requires Corresponds(d, p) && P.CapApplies(p, i)
    ensures ExceedsCap(d, DemoOf(i)) <==> 10000 * P.Projected(i) > i.portfolioValue.value * p.maxVenueBps
  {
    ProductAsReal(i.portfolioValue.value, p.maxVenueBps);
    ExactDivision(P.Projected(i), i.portfolioValue.value * p.maxVenueBps);
  }

  /**
   Over all integer intents the two guards return the same flag and the same code, except on a
   truncated negative cap, where the demo refuses with VENUE_CONCENTRATION and the enclave goes on.
   */
  lemma GuardsAgreeExactly(d: DemoPolicy, p: P.Policy, i: P.Intent)
    requires Corresponds(d, p)
    ensures Evaluate(d, DemoOf(i)) == P.EvaluateIntent(p, i) <==> !OnTruncatedNegativeCap(p, i)
  {
    SameAllowlist(d, p, i.venue);
    if P.CapApplies(p, i) {
      SameConcentrationTest(d, p, i);
      P.TruncatedTestIsExact(P.Projected(i), i.portfolioValue.value * p.maxVenueBps);
    }
  }

  /** They agree on everything the enclave's parser can produce, whose balances are never negative. */
  lemma GuardsAgreeOnReportedBalances(d: DemoPolicy, p: P.Policy, i: P.Intent)
    requires Corresponds(d, p) && P.BalanceReported(i)
    ensures Evaluate(d, DemoOf(i)) == P.EvaluateIntent(p, i)
  {
    GuardsAgreeExactly(d, p, i);
  }

  /** The exception is real: a balance of -2, an amount of 1 and a cap of -1.5 rounded up to -1. */
  lemma GuardsDiffer()
    ensures exists d, p, i ::
      Corresponds(d, p) && Evaluate(d, DemoOf(i)).code == P.VENUE_CONCENTRATION && P.EvaluateIntent(p, i).allow
  {
    var p := P.Policy("o", "r", P.Growth, "a", ["v"], -5000, 10, 0);
    var d := DemoPolicy("r", P.Growth, "a", [Venue("v", "v", 0.0)], -5000.0, 10.0, 0.0);
    var i := P.Intent(P.Allocate, "a", 1, Some("v"), None, false, Some(3), Some(-2), None);
    assert p.allowedVenues[0] == "v";
    assert P.EqAddr(Some("v"), i.venue);
    assert P.CapApplies(p, i) && P.Projected(i) == -1 && P.TruncDiv(-15000, 10000) == -1;
    assert OnTruncatedNegativeCap(p, i);
    SameAllowlist(d, p, i.venue);
    SameConcentrationTest(d, p, i);
    assert P.EvaluateIntent(p, i).allow;
    assert Evaluate(d, DemoOf(i)).code == P.VENUE_CONCENTRATION;
  }
}
