/**
 The concentration cap over runs of the enclave holds exactly if the guard makes its test: for every other portfolio
 value and bps there is a run whose reports are accurate and in which an allocation is signed beyond the share.
 */
module UntestedShares {
  import opened Common
  import opened Encoding
  import opened PolicyGuard
  import opened Codec
  import opened Handlers
  import opened HandlerRuns
  import opened Concentration
  import opened Scenario
  import B = Bookkeeping
  import T = Tenants
  import W = Wallet

  const VENUE := AddressEnding('5')

  function PolicyWith(bps: int): (p: Policy)
    ensures WellFormedPolicy(p)
  {
    SharedPolicy(ALICE, 9).(maxVenueBps := bps)
  }

  /** An allocation of one base unit, with the figures it reports. */
  function Allocation(portfolio: nat, balance: nat): Json {
    JObject(map["user" := JString(ALICE), "asset" := JString(ASSET), "amount" := JString(ToDecimal(1)),
                "venue" := JString(VENUE), "portfolioValue" := JString(ToDecimal(portfolio)),
                "venueBalance" := JString(ToDecimal(balance))])
  }

  function AllocationIntent(portfolio: nat, balance: nat): Intent {
    Intent(Allocate, ASSET, 1, Some(VENUE), None, false, Some(portfolio), Some(balance), None)
  }

  lemma AllocationParses(portfolio: nat, balance: nat)
    ensures ReqUser(Allocation(portfolio, balance)) == Ok(ALICE)
    ensures ParseVaultIntent(Allocate, Allocation(portfolio, balance)) == Ok(AllocationIntent(portfolio, balance))
  {
    DecimalRoundTrip(1);
    DecimalRoundTrip(portfolio);
    DecimalRoundTrip(balance);
    hide ALICE, ASSET, VENUE, IsAddress, DecimalValue, ToDecimal, ParseVaultIntent, IsDecimal;
    ParsesWhatIsDescribed(Allocation(portfolio, balance).fields, AllocationIntent(portfolio, balance));
  }

  lemma AllocationIsApproved(bps: int, portfolio: nat, balance: nat)
    requires portfolio == 0 || bps >= 10000
    ensures EvaluateIntent(PolicyWith(bps), AllocationIntent(portfolio, balance)).allow
  {
    var p := PolicyWith(bps);
    assert p.asset == ASSET && p.allowedVenues == [VENUE] && VENUE in p.allowedVenues;
    assert ASSET != "" && VENUE != "";
    hide ASSET, VENUE;
    UntestedUnitIsApproved(p, portfolio, balance, VENUE);
  }

  const ALLOCATE := Event(VaultAction(Allocate, EncodeHex([2])), Some([]))

  const RUN := [SEED_DELIVERY, SetPolicyEvent([1]), ALLOCATE]

  function EnvWith(bps: int, portfolio: nat, balance: nat): Env {
    ExampleEnv(map[[1] := PrintPolicy(PolicyWith(bps)), [2] := Allocation(portfolio, balance)])
  }

  lemma Messages(bps: int, portfolio: nat, balance: nat)
    ensures var env := EnvWith(bps, portfolio, balance);
      && DecodeJson(env, EncodeHex([1])) == Ok(PrintPolicy(PolicyWith(bps)))
      && DecodeUser(env, EncodeHex([2])) == Ok((Allocation(portfolio, balance), ALICE))
  {
    hide PrintPolicy, Allocation, EncodeHex, DecodeJson, PolicyWith, ReqUser;
    var payloads := map[[1] := PrintPolicy(PolicyWith(bps)), [2] := Allocation(portfolio, balance)];
    Decodes(payloads, [1]);
    Decodes(payloads, [2]);
    assert [1][0] != [2][0];
    AllocationParses(portfolio, balance);
  }

  lemma Pieces()
    ensures |RUN| == 3 && RUN[0] == SEED_DELIVERY && RUN[1] == SetPolicyEvent([1]) && RUN[2] == ALLOCATE
    ensures RUN[..0] == [] && RUN[..1] == RUN[..0] + [SEED_DELIVERY] && RUN[..2] == RUN[..1] + [SetPolicyEvent([1])]
    ensures RUN == RUN[..2] + [ALLOCATE]
  {
    hide SEED_DELIVERY, SetPolicyEvent, ALLOCATE;
  }

  /** The state in which the allocation is handled. */
  function Stored(p: Policy): EnclaveState {
    EnclaveState(Some(Zeros(32)), map[ToLower(p.owner) := FRESH_USER.(policy := Some(p))])
  }

  lemma PolicyIsStored(env: Env, msg: string, p: Policy, awaited: Option<bytes>)
    requires WellFormedPolicy(p) && DecodeJson(env, msg) == Ok(PrintPolicy(p))
    ensures var s := EnclaveState(Some(Zeros(32)), map[]);
      Apply(env, s, SetPolicy(msg), awaited) == (Stored(p), Success(PolicySet(p.owner, p.riskLevel, |p.allowedVenues|)))
  {
    hide Apply, PrintPolicy, DecodeJson, WellFormedPolicy, ToLower;
    PolicyIsSet(env, EnclaveState(Some(Zeros(32)), map[]), msg, p, awaited);
  }

  /** Before the allocation the seed is loaded, then the policy is stored. */
  lemma BeforeAllocation(env: Env, p: Policy)
    requires WellFormedPolicy(p) && DecodeJson(env, EncodeHex([1])) == Ok(PrintPolicy(p))
    ensures |RUN| == 3 && Run(env, INITIAL, RUN[..0]) == (INITIAL, [])
    ensures Run(env, INITIAL, RUN[..1]) == (EnclaveState(Some(Zeros(32)), map[]), [Success(KeyLoaded)])
    ensures Run(env, INITIAL, RUN[..2]) ==
      (Stored(p), [Success(KeyLoaded), Success(PolicySet(p.owner, p.riskLevel, |p.allowedVenues|))])
  {
    Pieces();
    hide Apply, EncodeHex, DecodeJson, PrintPolicy, WellFormedPolicy, Stored, RUN;
    assert Run(env, INITIAL, []) == (INITIAL, []);
    var loaded, stored := Success(KeyLoaded), Success(PolicySet(p.owner, p.riskLevel, |p.allowedVenues|));
    assert [] + [loaded] == [loaded] && [loaded] + [stored] == [loaded, stored];
    RunSnoc(env, RUN[..0], SEED_DELIVERY);
    SeedIsLoaded(env, INITIAL);
    RunSnoc(env, RUN[..1], SetPolicyEvent([1]));
    hide Run;
    PolicyIsStored(env, EncodeHex([1]), p, None);
  }

  /** The answer signs one base unit into the venue. */
  lemma AllocationIsAnswered(env: Env, bps: int, portfolio: nat, balance: nat)
    requires portfolio == 0 || bps >= 10000
    requires env.crypto == ExampleSuite()
    requires DecodeUser(env, EncodeHex([2])) == Ok((Allocation(portfolio, balance), ALICE))
    ensures MovedInto(Apply(env, Stored(PolicyWith(bps)), ALLOCATE.req, ALLOCATE.awaited).1, AddressBytes(VENUE)) == 1
  {
    hide Apply, EncodeHex, DecodeUser, PolicyWith, ALICE, ASSET, VENUE, Allocation, ExampleSuite, Stored, Lookup;
    hide EvaluateIntent, ParseVaultIntent, ToDecimal, W.Derive, AddressBytes, DecimalValue, IsAddress, WalletOf;
    hide WellFormedPolicy, IsDecimal;
    AllocationParses(portfolio, balance);
    AllocationIsApproved(bps, portfolio, balance);
    OwnPolicy(bps);
    WalletDerived(ALICE);
    DecimalRoundTrip(1);
    ApprovedAnswer(env, Stored(PolicyWith(bps)), EncodeHex([2]), Allocation(portfolio, balance), ALICE, PolicyWith(bps),
                   AllocationIntent(portfolio, balance), Some([]));
  }

  lemma OwnPolicy(bps: int)
    ensures var p := PolicyWith(bps);
      && p.owner == ALICE && p.riskLevel == Moderate && |p.allowedVenues| == 1 && p.maxVenueBps == bps
      && Stored(p).seed == Some(Zeros(32)) && Lookup(Stored(p).users, ALICE).policy == Some(p)
    ensures IsAddress(ALICE) && IsAddress(VENUE)
  {
    hide ALICE, ToLower;
  }

  lemma OneMoreAnswer(env: Env, u: string, trace: seq<Event>, e: Event, outcomes: seq<Outcome>, o: Outcome,
                      venue: Address)
    requires |trace| == |outcomes|
    ensures SignedInto(T.Answers(env, u, trace + [e], outcomes + [o]), venue)
         == SignedInto(T.Answers(env, u, trace, outcomes), venue)
            + (if T.Mine(env, u, e) then MovedInto(o, venue) else 0)
  {
    hide T.Mine, MovedInto;
    var before, all := T.Answers(env, u, trace, outcomes), T.Answers(env, u, trace + [e], outcomes + [o]);
    assert (trace + [e])[..|trace|] == trace && (outcomes + [o])[..|outcomes|] == outcomes;
    if T.Mine(env, u, e) {
      assert all == before + [o] && all[..|before|] == before;
    } else {
      assert all == before;
    }
  }

  /** Nothing is signed into a venue before the allocation. */
  lemma SignedBefore(env: Env, p: Policy, u: string, venue: Address, k: nat)
    requires WellFormedPolicy(p) && DecodeJson(env, EncodeHex([1])) == Ok(PrintPolicy(p)) && k <= 2
    ensures |RUN| == 3 && SignedInto(T.Answers(env, u, RUN[..k], Run(env, INITIAL, RUN[..k]).1), venue) == 0
  {
    Pieces();
    BeforeAllocation(env, p);
    hide EncodeHex, DecodeJson, Run, PrintPolicy, RUN, SEED_DELIVERY, SetPolicyEvent, T.Mine, WellFormedPolicy, Stored;
    var loaded, stored := Success(KeyLoaded), Success(PolicySet(p.owner, p.riskLevel, |p.allowedVenues|));
    assert [] + [loaded] == [loaded] && [loaded] + [stored] == [loaded, stored];
    OneMoreAnswer(env, u, RUN[..0], SEED_DELIVERY, [], loaded, venue);
    OneMoreAnswer(env, u, RUN[..1], SetPolicyEvent([1]), [loaded], stored, venue);
    hide T.Answers;
  }

  lemma LastAnswerCounts(env: Env, u: string, venue: Address)
    requires |RUN| == 3 && T.Mine(env, u, ALLOCATE)
    ensures var (s, before) := Run(env, INITIAL, RUN[..2]);
      SignedInto(T.Answers(env, u, RUN, Run(env, INITIAL, RUN).1), venue)
      == SignedInto(T.Answers(env, u, RUN[..2], before), venue)
         + MovedInto(Apply(env, s, ALLOCATE.req, ALLOCATE.awaited).1, venue)
  {
    hide Apply, MovedInto, SignedInto, T.Answers, T.Mine;
    Pieces();
    hide RUN, ALLOCATE;
    RunSnoc(env, RUN[..2], ALLOCATE);
    hide Run;
    var (s, before) := Run(env, INITIAL, RUN[..2]);
    OneMoreAnswer(env, u, RUN[..2], ALLOCATE, before, Apply(env, s, ALLOCATE.req, ALLOCATE.awaited).1, venue);
  }

  lemma AllocationIsMine(env: Env, payload: Json)
    requires DecodeUser(env, EncodeHex([2])) == Ok((payload, ALICE))
    ensures T.Mine(env, ToLower(ALICE), ALLOCATE)
  {
    hide DecodeUser, EncodeHex, ALICE, ToLower;
  }

  /** One base unit is signed into the venue by the whole run. */
  lemma SignedByRun(bps: int, portfolio: nat, balance: nat)
    requires portfolio == 0 || bps >= 10000
    ensures var env := EnvWith(bps, portfolio, balance);
      SignedInto(T.Answers(env, ToLower(ALICE), RUN, Run(env, INITIAL, RUN).1), AddressBytes(VENUE)) == 1
  {
    var env, p := EnvWith(bps, portfolio, balance), PolicyWith(bps);
    assert env.crypto == ExampleSuite();
    hide ExampleSuite, EnvWith, PolicyWith, EncodeHex, DecodeJson, DecodeUser, ALICE, VENUE, AddressBytes, ToLower, Run;
    hide PrintPolicy, RUN, Allocation, Apply, MovedInto, SignedInto, T.Answers, Stored, T.Mine, ALLOCATE, IsAddress;
    hide WellFormedPolicy, SEED_DELIVERY, SetPolicyEvent;
    Pieces();
    Messages(bps, portfolio, balance);
    BeforeAllocation(env, p);
    SignedBefore(env, p, ToLower(ALICE), AddressBytes(VENUE), 2);
    AllocationIsAnswered(env, bps, portfolio, balance);
    AllocationIsMine(env, Allocation(portfolio, balance));
    LastAnswerCounts(env, ToLower(ALICE), AddressBytes(VENUE));
  }

  lemma AllocationReports(env: Env, portfolio: nat, balance: nat, holding: Address -> nat)
    requires DecodeUser(env, EncodeHex([2])) == Ok((Allocation(portfolio, balance), ALICE)) && IsAddress(VENUE)
    requires holding(AddressBytes(VENUE)) == balance
    ensures Reports(env, ALLOCATE, portfolio, holding)
  {
    AllocationParses(portfolio, balance);
    hide EncodeHex, DecodeUser, ALICE, VENUE, ASSET, AddressBytes, ParseVaultIntent, Allocation;
  }

  /** Only the allocation has to report anything. */
  lemma OnlyAllocationReports(env: Env, u: string, portfolio: nat, initial: Address -> nat)
    requires |RUN| == 3 && Reports(env, ALLOCATE, portfolio, v => Holding(env, u, RUN[..2], initial, v))
    ensures AccurateReports(env, u, RUN, portfolio, initial)
  {
    hide Holding, T.Mine, DecodeUser, ParseVaultIntent, AddressBytes, IsAddress, EncodeHex;
    Pieces();
    hide RUN;
    forall k | 0 <= k < 2
      ensures Reports(env, RUN[k], portfolio, v => Holding(env, u, RUN[..k], initial, v))
    {
    }
    hide Reports;
  }

  /** Its report is accurate. */
  lemma RunReports(bps: int, portfolio: nat, balance: nat)
    ensures AccurateReports(EnvWith(bps, portfolio, balance), ToLower(ALICE), RUN, portfolio, _ => balance)
  {
    hide EnvWith, PolicyWith, EncodeHex, DecodeJson, DecodeUser, ALICE, VENUE, ToLower, Run, RUN, WellFormedPolicy;
    hide PrintPolicy, Allocation, T.Mine, SignedInto, T.Answers, AddressBytes, IsAddress, Reports, ALLOCATE;
    var env, u := EnvWith(bps, portfolio, balance), ToLower(ALICE);
    Pieces();
    OwnPolicy(bps);
    Messages(bps, portfolio, balance);
    SignedBefore(env, PolicyWith(bps), u, AddressBytes(VENUE), 2);
    AllocationReports(env, portfolio, balance, v => Holding(env, u, RUN[..2], _ => balance, v));
    OnlyAllocationReports(env, u, portfolio, _ => balance);
  }

  /** The only policy that the run stores has this bps. */
  lemma RunCaps(bps: int, portfolio: nat, balance: nat)
    ensures ShareCappedBy(EnvWith(bps, portfolio, balance), ToLower(ALICE), RUN, bps)
  {
    var env, p := EnvWith(bps, portfolio, balance), PolicyWith(bps);
    Pieces();
    OwnPolicy(bps);
    Messages(bps, portfolio, balance);
    BeforeAllocation(env, p);
    hide EnvWith, PolicyWith, EncodeHex, DecodeJson, DecodeUser, ALICE, ToLower, Run, RUN, WellFormedPolicy;
    hide PrintPolicy;
    hide Allocation, IsAddress, SEED_DELIVERY, SetPolicyEvent, ALLOCATE;
    forall k | 0 <= k < 3
      ensures var q := B.Entry(Before(env, RUN, k).users, ToLower(ALICE)).policy; q.Some? ==> q.value.maxVenueBps <= bps
    {
      assert k == 0 || k == 1 || k == 2;
    }
  }

  // ---- exactly when ----------------------------------------------------------------------------

  /** If the user's reports are accurate and no policy allows more than bps, the venue holds at most that share. */
  ghost predicate StaysWithin(env: Env, u: string, trace: seq<Event>, venue: Address, portfolio: nat,
                              initial: Address -> nat, bps: int)
  {
    AccurateReports(env, u, trace, portfolio, initial) && ShareCappedBy(env, u, trace, bps)
    && SignedInto(T.Answers(env, u, trace, Run(env, INITIAL, trace).1), venue) > 0 ==>
      10000 * Holding(env, u, trace, initial, venue) <= portfolio * bps
  }

  /** Without the test there is a run whose reports are accurate and which signs into a venue beyond the share. */
  lemma UntestedShareIsSigned(bps: int, portfolio: nat, balance: nat)
    requires portfolio == 0 || bps >= 10000
    requires 10000 * (balance + 1) > portfolio * bps
    ensures !StaysWithin(EnvWith(bps, portfolio, balance), ToLower(ALICE), RUN, AddressBytes(VENUE), portfolio,
                         _ => balance, bps)
  {
    RunReports(bps, portfolio, balance);
    RunCaps(bps, portfolio, balance);
    SignedByRun(bps, portfolio, balance);
    hide EnvWith, ALICE, VENUE, AddressBytes, ToLower, Run, RUN, AccurateReports, ShareCappedBy, SignedInto, T.Answers;
  }

  /** The share of the portfolio is kept in all runs if and only if the guard makes its concentration test. */
  lemma ShareIsKeptIffTested(portfolio: nat, bps: int)
    ensures (forall env, u, trace, venue, initial :: StaysWithin(env, u, trace, venue, portfolio, initial, bps))
       <==> portfolio > 0 && bps < 10000
  {
    hide StaysWithin, Run;
    if portfolio > 0 && bps < 10000 {
      forall env, u, trace, venue, initial
        ensures StaysWithin(env, u, trace, venue, portfolio, initial, bps)
      {
        TestedShareStays(env, u, trace, venue, portfolio, initial, bps);
      }
    } else {
      var balance: nat := if portfolio * bps > 0 then portfolio * bps else 0;
      UntestedShareIsSigned(bps, portfolio, balance);
    }
  }

  lemma TestedShareStays(env: Env, u: string, trace: seq<Event>, venue: Address, portfolio: nat,
                         initial: Address -> nat, bps: int)
    requires portfolio > 0 && bps < 10000
    ensures StaysWithin(env, u, trace, venue, portfolio, initial, bps)
  {
    hide Run, AccurateReports, ShareCappedBy, SignedInto, Holding, T.Answers;
    if AccurateReports(env, u, trace, portfolio, initial) && ShareCappedBy(env, u, trace, bps) {
      SignedSharesStayCapped(env, u, trace, venue, portfolio, initial, bps);
    }
  }
}
