/** Model of extension/typescript/src/app/policy.ts: the guard the enclave runs before it signs. */
module PolicyGuard {
  import opened Common
  import opened Encoding

  datatype IntentKind = Allocate | Rebalance | Withdraw

  datatype RiskLevel = Conservative | Moderate | Growth

  /** Addresses are strings here, in whatever letter case they arrived. */
  datatype Policy = Policy(
    owner: string,
    returnAddress: string,
    riskLevel: RiskLevel,
    asset: string,
    allowedVenues: seq<string>,
    maxVenueBps: int,
    maxTxAmount: int,
    minHealthFactorBps: int)

  /** userAuthorized is true only for a field that is present and true. */
  datatype Intent = Intent(
    kind: IntentKind,
    asset: string,
    amount: int,
    venue: Option<string>,
    to: Option<string>,
    userAuthorized: bool,
    portfolioValue: Option<int>,
    venueBalance: Option<int>,
    projectedHealthFactorBps: Option<int>)

  datatype DecisionCode =
    | OK
    | ZERO_AMOUNT
    | ASSET_NOT_ALLOWED
    | AMOUNT_EXCEEDS_CAP
    | DEST_NOT_ALLOWED
    | WITHDRAW_NON_RETURN
    | NEEDS_USER_SIGNATURE
    | VENUE_CONCENTRATION
    | HEALTH_FACTOR

  datatype Decision = Decision(allow: bool, code: DecisionCode)

  const ALLOW := Decision(true, OK)

  function Deny(code: DecisionCode): Decision {
    Decision(false, code)
  }

  /** An absent or empty address equals nothing. */
  predicate EqAddr(a: Option<string>, b: Option<string>) {
    a.Some? && b.Some? && a.value != "" && b.value != "" && ToLower(a.value) == ToLower(b.value)
  }

  predicate IsAllowedVenue(allowedVenues: seq<string>, venue: Option<string>) {
    venue.Some? && venue.value != "" && exists v :: v in allowedVenues && EqAddr(Some(v), venue)
  }

  function GetOr(o: Option<int>, default: int): int {
    if o.Some? then o.value else default
  }

  /** BigInt division: it truncates toward zero, unlike Dafny's. */
  function TruncDiv(a: int, b: int): int
    requires b > 0
  {
    if a >= 0 then a / b else -((-a) / b)
  }

  function EvaluateIntent(policy: Policy, intent: Intent): Decision {
    if intent.amount <= 0 then Deny(ZERO_AMOUNT)
    else if !EqAddr(Some(intent.asset), Some(policy.asset)) then Deny(ASSET_NOT_ALLOWED)
    else if intent.amount > policy.maxTxAmount then Deny(AMOUNT_EXCEEDS_CAP)
    else match intent.kind
      case Withdraw =>
        if !intent.userAuthorized then Deny(NEEDS_USER_SIGNATURE)
        else if !EqAddr(intent.to, Some(policy.returnAddress)) then Deny(WITHDRAW_NON_RETURN)
        else ALLOW
      case _ =>
        if !IsAllowedVenue(policy.allowedVenues, intent.venue) then Deny(DEST_NOT_ALLOWED)
        else if CapApplies(policy, intent) && Projected(intent) > CapAmount(policy, intent) then
          Deny(VENUE_CONCENTRATION)
        else if intent.kind == Rebalance && intent.projectedHealthFactorBps.Some?
                && intent.projectedHealthFactorBps.value < policy.minHealthFactorBps then
          Deny(HEALTH_FACTOR)
        else ALLOW
  }

  predicate CapApplies(policy: Policy, intent: Intent) {
    policy.maxVenueBps < 10000 && intent.portfolioValue.Some? && intent.portfolioValue.value > 0
  }

  function Projected(intent: Intent): int {
    GetOr(intent.venueBalance, 0) + intent.amount
  }

  function CapAmount(policy: Policy, intent: Intent): int
    requires CapApplies(policy, intent)
  {
    TruncDiv(intent.portfolioValue.value * policy.maxVenueBps, 10000)
  }

  // ---- the concentration test ---------------------------------------------------

  /**
   The truncated test agrees with the exact one on every pair of integers but one kind: a negative
   cap with a remainder is truncated upward, and a projection that lands on it passes.
   */
  lemma TruncatedTestIsExact(projected: int, cap: int)
    ensures (projected > TruncDiv(cap, 10000) <==> 10000 * projected > cap)
       <==> !(TruncatedUpward(cap) && projected == TruncDiv(cap, 10000))
  {
    if cap < 0 {
      var q := (-cap) / 10000;
      assert TruncDiv(cap, 10000) == -q && 10000 * q <= -cap < 10000 * (q + 1);
    } else {
      var q := cap / 10000;
      assert TruncDiv(cap, 10000) == q && 10000 * q <= cap < 10000 * (q + 1);
    }
  }

  /** A negative value that 10000 does not divide. */
  predicate TruncatedUpward(cap: int) {
    cap < 0 && 10000 * TruncDiv(cap, 10000) != cap
  }

  /** What the guard promises, with the share of the portfolio compared exactly. */
  predicate Permitted(policy: Policy, intent: Intent) {
    && 0 < intent.amount <= policy.maxTxAmount
    && EqAddr(Some(intent.asset), Some(policy.asset))
    && (intent.kind == Withdraw ==> intent.userAuthorized && EqAddr(intent.to, Some(policy.returnAddress)))
    && (intent.kind != Withdraw ==>
          && IsAllowedVenue(policy.allowedVenues, intent.venue)
          && (CapApplies(policy, intent) ==>
                10000 * Projected(intent) <= intent.portfolioValue.value * policy.maxVenueBps))
    && (intent.kind == Rebalance && intent.projectedHealthFactorBps.Some? ==>
          intent.projectedHealthFactorBps.value >= policy.minHealthFactorBps)
  }

  /** A reported balance is never negative in a parsed payload. */
  predicate BalanceReported(intent: Intent) {
    GetOr(intent.venueBalance, 0) >= 0
  }

  /** The guard approves exactly the permitted intents, for any bps, negative ones included. */
  lemma GuardIsExact(policy: Policy, intent: Intent)
    requires BalanceReported(intent)
    ensures EvaluateIntent(policy, intent).allow <==> Permitted(policy, intent)
    ensures EvaluateIntent(policy, intent).allow <==> EvaluateIntent(policy, intent).code == OK
  {
    if CapApplies(policy, intent) {
      TruncatedTestIsExact(Projected(intent), intent.portfolioValue.value * policy.maxVenueBps);
    }
  }

  /** For an intent that reaches the concentration test, the refusal is exact. */
  lemma ConcentrationRefusalIsExact(policy: Policy, intent: Intent)
    requires BalanceReported(intent) && intent.kind != Withdraw
    requires 0 < intent.amount <= policy.maxTxAmount && EqAddr(Some(intent.asset), Some(policy.asset))
    requires IsAllowedVenue(policy.allowedVenues, intent.venue)
    ensures EvaluateIntent(policy, intent).code == VENUE_CONCENTRATION
       <==> && CapApplies(policy, intent)
            && 10000 * Projected(intent) > intent.portfolioValue.value * policy.maxVenueBps
  {
    if CapApplies(policy, intent) {
      TruncatedTestIsExact(Projected(intent), intent.portfolioValue.value * policy.maxVenueBps);
    }
  }

  // ---- monotonicity -----------------------------------------------------------------

  /** Pointwise tighter: fewer venues (up to case), lower caps, higher floor, same asset and return address. */
  predicate Tighter(p: Policy, q: Policy) {
    && ToLower(p.asset) == ToLower(q.asset)
    && ToLower(p.returnAddress) == ToLower(q.returnAddress)
    && (forall v :: v in p.allowedVenues && v != "" ==> IsAllowedVenue(q.allowedVenues, Some(v)))
    && p.maxVenueBps <= q.maxVenueBps
    && p.maxTxAmount <= q.maxTxAmount
    && p.minHealthFactorBps >= q.minHealthFactorBps
  }

  lemma TruncDivMonotone(a: int, b: int)
    requires a <= b
    ensures TruncDiv(a, 10000) <= TruncDiv(b, 10000)
  {
  }

  lemma EmptyLower(s: string)
    ensures ToLower(s) == "" <==> s == ""
  {
  }

  lemma ScaleMonotone(k: int, a: int, b: int)
    requires k > 0 && a <= b
    ensures k * a <= k * b
  {
  }

  /** A tighter policy approves nothing that the looser one refuses. */
  lemma GuardMonotone(p: Policy, q: Policy, intent: Intent)
    requires Tighter(p, q)
    requires EvaluateIntent(p, intent).allow
    ensures EvaluateIntent(q, intent).allow
  {
    EmptyLower(p.asset);
    EmptyLower(q.asset);
    EmptyLower(p.returnAddress);
    EmptyLower(q.returnAddress);
    if intent.kind != Withdraw {
      var v :| v in p.allowedVenues && EqAddr(Some(v), intent.venue);
      var w :| w in q.allowedVenues && EqAddr(Some(w), Some(v));
      assert EqAddr(Some(w), intent.venue);
      if CapApplies(q, intent) {
        var pv := intent.portfolioValue.value;
        ScaleMonotone(pv, p.maxVenueBps, q.maxVenueBps);
        TruncDivMonotone(pv * p.maxVenueBps, pv * q.maxVenueBps);
      }
    }
  }

  /** An approved intent stays approved at any smaller positive amount. */
  lemma SmallerAmountStaysApproved(policy: Policy, intent: Intent, amount: int)
    requires EvaluateIntent(policy, intent).allow
    requires 0 < amount <= intent.amount
    ensures EvaluateIntent(policy, intent.(amount := amount)).allow
  {
    var smaller := intent.(amount := amount);
    assert CapApplies(policy, smaller) <==> CapApplies(policy, intent);
  }

  // ---- runs of allocations ------------------------------------------------------------

  /** Venue balances, keyed by lower-case address. */
  type Balances = map<string, nat>

  function BalanceOf(b: Balances, venue: string): nat {
    if ToLower(venue) in b then b[ToLower(venue)] else 0
  }

  /** The intent with the portfolio value and the balance that hold when it is evaluated. */
  function Accurate(b: Balances, portfolio: nat, intent: Intent): Intent {
    intent.(portfolioValue := Some(portfolio),
            venueBalance := Some(if intent.venue.Some? then BalanceOf(b, intent.venue.value) else 0))
  }

  /** Evaluate each intent with accurate figures; an approved one moves its amount into its venue. */
  function RunAllocations(policy: Policy, portfolio: nat, b: Balances, intents: seq<Intent>): (Balances, set<string>)
    requires forall i :: i in intents ==> i.kind != Withdraw
  {
    if intents == [] then (b, {})
    else
      var (before, touched) := RunAllocations(policy, portfolio, b, intents[..|intents| - 1]);
      var intent := Accurate(before, portfolio, intents[|intents| - 1]);
      if EvaluateIntent(policy, intent).allow then
        var key := ToLower(intent.venue.value);
        (before[key := (BalanceOf(before, intent.venue.value) + intent.amount) as nat], touched + {key})
      else (before, touched)
  }

  predicate WithinCap(b: Balances, venues: set<string>, cap: int) {
    forall v :: v in venues ==> v in b && 10000 * b[v] <= cap
  }

  /** Every venue that a run allocated to stays within its share of the portfolio. */
  lemma {:induction false} ConcentrationHoldsOnRuns(policy: Policy, portfolio: nat, b: Balances, intents: seq<Intent>)
    requires forall i :: i in intents ==> i.kind != Withdraw
    requires portfolio > 0 && policy.maxVenueBps < 10000
    ensures var (after, touched) := RunAllocations(policy, portfolio, b, intents);
      WithinCap(after, touched, portfolio * policy.maxVenueBps)
  {
    if intents != [] {
      ConcentrationHoldsOnRuns(policy, portfolio, b, intents[..|intents| - 1]);
      var (before, touched) := RunAllocations(policy, portfolio, b, intents[..|intents| - 1]);
      var intent := Accurate(before, portfolio, intents[|intents| - 1]);
      GuardIsExact(policy, intent);
      assert CapApplies(policy, intent);
    }
  }

  // ---- when the share is kept ----------------------------------------------------------

  predicate VenueIntents(intents: seq<Intent>) {
    forall i :: i in intents ==> i.kind != Withdraw
  }

  /** Some intent for a venue can get as far as the concentration test. */
  predicate CanAllocate(policy: Policy) {
    policy.maxTxAmount >= 1 && policy.asset != "" && exists v :: v in policy.allowedVenues && v != ""
  }

  /** The run leaves every venue that it allocated to within its share. */
  predicate KeepsShare(policy: Policy, portfolio: nat, b: Balances, intents: seq<Intent>)
    requires VenueIntents(intents)
  {
    var (after, touched) := RunAllocations(policy, portfolio, b, intents);
    WithinCap(after, touched, portfolio * policy.maxVenueBps)
  }

  lemma ApprovedCanAllocate(policy: Policy, intent: Intent)
    requires intent.kind != Withdraw && EvaluateIntent(policy, intent).allow
    ensures CanAllocate(policy)
  {
    var v :| v in policy.allowedVenues && EqAddr(Some(v), intent.venue);
  }

  lemma {:induction false} NothingAllocated(policy: Policy, portfolio: nat, b: Balances, intents: seq<Intent>)
    requires VenueIntents(intents) && !CanAllocate(policy)
    ensures RunAllocations(policy, portfolio, b, intents) == (b, {})
  {
    if intents != [] {
      var n := |intents| - 1;
      NothingAllocated(policy, portfolio, b, intents[..n]);
      var intent := Accurate(b, portfolio, intents[n]);
      if EvaluateIntent(policy, intent).allow {
        ApprovedCanAllocate(policy, intent);
      }
    }
  }

  /** n allocations of one base unit to a venue. */
  function UnitsInto(policy: Policy, venue: string, n: nat): (intents: seq<Intent>)
    ensures VenueIntents(intents)
  {
    seq(n, _ => Intent(Allocate, policy.asset, 1, Some(venue), None, false, None, None, None))
  }

  lemma UntestedUnitIsApproved(policy: Policy, portfolio: nat, balance: nat, venue: string)
    requires policy.maxVenueBps >= 10000 || portfolio == 0
    requires policy.maxTxAmount >= 1 && policy.asset != "" && venue in policy.allowedVenues && venue != ""
    ensures EvaluateIntent(policy,
      Intent(Allocate, policy.asset, 1, Some(venue), None, false, Some(portfolio), Some(balance), None)).allow
  {
    assert EqAddr(Some(venue), Some(venue)) && EqAddr(Some(policy.asset), Some(policy.asset));
  }

  /** Without the test, each of them is approved. */
  lemma {:induction false} UntestedUnitsMove(policy: Policy, portfolio: nat, b: Balances, venue: string, n: nat)
    requires policy.maxVenueBps >= 10000 || portfolio == 0
    requires policy.maxTxAmount >= 1 && policy.asset != "" && venue in policy.allowedVenues && venue != ""
    ensures var (after, touched) := RunAllocations(policy, portfolio, b, UnitsInto(policy, venue, n));
      && BalanceOf(after, venue) == BalanceOf(b, venue) + n
      && (n > 0 ==> ToLower(venue) in touched && ToLower(venue) in after)
  {
    hide EvaluateIntent, ToLower;
    if n > 0 {
      UntestedUnitsMove(policy, portfolio, b, venue, n - 1);
      var intents := UnitsInto(policy, venue, n);
      assert intents[..n - 1] == UnitsInto(policy, venue, n - 1);
      var intent := Accurate(RunAllocations(policy, portfolio, b, intents[..n - 1]).0, portfolio, intents[n - 1]);
      UntestedUnitIsApproved(policy, portfolio, intent.venueBalance.value, venue);
    }
  }

  /** The run that exceeds the share: one base unit more than the share has basis points of base units. */
  lemma UntestedShareIsExceeded(policy: Policy, portfolio: nat, b: Balances)
    requires policy.maxVenueBps >= 10000 || portfolio == 0
    requires CanAllocate(policy)
    ensures exists intents :: VenueIntents(intents) && !KeepsShare(policy, portfolio, b, intents)
  {
    var venue :| venue in policy.allowedVenues && venue != "";
    var share := portfolio * policy.maxVenueBps;
    var n: nat := if share > 0 then share + 1 else 1;
    UntestedUnitsMove(policy, portfolio, b, venue, n);
    hide RunAllocations;
    assert !KeepsShare(policy, portfolio, b, UnitsInto(policy, venue, n));
  }

  /**
   From any balances, every run stays within the share if and only if the guard makes its concentration test, which
   needs a bps below 10000 and a portfolio value, or the policy allows no allocation at all.
   */
  lemma ShareIsKeptIffTested(policy: Policy, portfolio: nat, b: Balances)
    ensures (forall intents :: VenueIntents(intents) ==> KeepsShare(policy, portfolio, b, intents))
       <==> (portfolio > 0 && policy.maxVenueBps < 10000) || !CanAllocate(policy)
  {
    hide RunAllocations, CanAllocate;
    if portfolio > 0 && policy.maxVenueBps < 10000 {
      forall intents | VenueIntents(intents) ensures KeepsShare(policy, portfolio, b, intents) {
        ConcentrationHoldsOnRuns(policy, portfolio, b, intents);
      }
    } else if !CanAllocate(policy) {
      forall intents | VenueIntents(intents) ensures KeepsShare(policy, portfolio, b, intents) {
        NothingAllocated(policy, portfolio, b, intents);
      }
    } else {
      UntestedShareIsExceeded(policy, portfolio, b);
    }
  }
}
