/** Model of extension/typescript/src/app/codec.ts: payload decoding and the digest that is signed. */
module Codec {
  import opened Common
  import opened Encoding
  import opened PolicyGuard
  import opened Crypto
  import A = Abi
  import V = Vault

  /** A parsed JSON value. A number either is an integer or is not. */
  datatype Json =
    | JNull
    | JBool(b: bool)
    | JInt(n: int)
    | JFraction
    | JString(s: string)
    | JArray(items: seq<Json>)
    | JObject(fields: map<string, Json>)

  datatype ParseError =
    | NotAnObject
    | MissingOrEmpty(field: string)
    | NotAnAddress(field: string)
    | NotDecimal(field: string)
    | NotAnInteger(field: string)
    | NotABoolean(field: string)
    | UnknownRiskLevel
    | NoVenues
    | VenueNotAnAddress(index: nat)

  type Fields = map<string, Json>

  type Parsed<T> = Result<T, ParseError>

  // ---- decimal strings -------------------------------------------------------------

  predicate IsDigit(c: char) {
    '0' <= c <= '9'
  }

  predicate IsDecimal(s: string) {
    s != "" && forall i :: 0 <= i < |s| ==> IsDigit(s[i])
  }

  /** BigInt of a decimal string. */
  function DecimalValue(s: string): nat
    requires forall i :: 0 <= i < |s| ==> IsDigit(s[i])
  {
    if s == "" then 0
    else
      assert IsDigit(s[|s| - 1]);
      10 * DecimalValue(s[..|s| - 1]) + (s[|s| - 1] as int - '0' as int)
  }

  /** bigint.toString(). */
  function ToDecimal(n: nat): (s: string)
    ensures IsDecimal(s)
  {
    var last := ['0' + (n % 10) as char];
    if n < 10 then last else ToDecimal(n / 10) + last
  }

  lemma {:induction false} DecimalRoundTrip(n: nat)
    ensures DecimalValue(ToDecimal(n)) == n
  {
    var s := ToDecimal(n);
    if n >= 10 {
      DecimalRoundTrip(n / 10);
      assert s[..|s| - 1] == ToDecimal(n / 10);
    } else {
      assert s[..|s| - 1] == "";
    }
  }

  function ZeroDigits(z: nat): string {
    seq(z, _ => '0')
  }

  /** The decimal strings are the printed numbers behind any number of zeros, and that number is their value. */
  lemma DecimalSpellings(s: string)
    ensures IsDecimal(s) <==> exists z: nat, n: nat :: s == ZeroDigits(z) + ToDecimal(n)
    ensures IsDecimal(s) ==> exists z: nat, n: nat :: s == ZeroDigits(z) + ToDecimal(n) && DecimalValue(s) == n
  {
    if IsDecimal(s) {
      DecimalIsSpelled(s);
    }
    if z: nat, n: nat :| s == ZeroDigits(z) + ToDecimal(n) {
      forall i | 0 <= i < |s|
        ensures IsDigit(s[i])
      {
        assert i < z ==> s[i] == ZeroDigits(z)[i];
        assert i >= z ==> s[i] == ToDecimal(n)[i - z];
      }
    }
  }

  /** One more digit behind a spelling of n spells 10 n plus the digit. */
  lemma SpellingGrows(z: nat, n: nat, d: nat)
    requires d < 10
    ensures exists y: nat :: ZeroDigits(z) + ToDecimal(n) + ['0' + d as char] == ZeroDigits(y) + ToDecimal(10 * n + d)
  {
    var c := ['0' + d as char];
    if n == 0 {
      assert ZeroDigits(z) + "0" == ZeroDigits(z + 1);
      assert ZeroDigits(z) + ToDecimal(n) + c == ZeroDigits(z + 1) + ToDecimal(10 * n + d);
    } else {
      assert ToDecimal(10 * n + d) == ToDecimal(n) + c;
      assert ZeroDigits(z) + ToDecimal(n) + c == ZeroDigits(z) + ToDecimal(10 * n + d);
    }
  }

  lemma {:induction false} DecimalIsSpelled(s: string)
    requires IsDecimal(s)
    ensures exists z: nat, n: nat :: s == ZeroDigits(z) + ToDecimal(n) && DecimalValue(s) == n
  {
    var k := |s| - 1;
    var d: nat := s[k] as int - '0' as int;
    if k == 0 {
      assert DecimalValue(s[..0]) == 0;
      assert s == ZeroDigits(0) + ToDecimal(d);
    } else {
      DecimalIsSpelled(s[..k]);
      var z: nat, n: nat :| s[..k] == ZeroDigits(z) + ToDecimal(n) && DecimalValue(s[..k]) == n;
      assert s == s[..k] + [s[k]];
      SpellingGrows(z, n, d);
      assert DecimalValue(s) == 10 * n + d;
      hide DecimalValue, ToDecimal;
    }
  }

  // ---- field readers -----------------------------------------------------------------

  function AsObject(v: Json): Parsed<Fields> {
    if v.JObject? then Ok(v.fields) else Err(NotAnObject)
  }

  function ReqString(o: Fields, k: string): Parsed<string> {
    if k !in o || !o[k].JString? || o[k].s == "" then Err(MissingOrEmpty(k)) else Ok(o[k].s)
  }

  function ReqAddress(o: Fields, k: string): (r: Parsed<string>)
    ensures r.Ok? ==> IsAddress(r.value)
  {
    var v :- ReqString(o, k);
    if !IsAddress(v) then Err(NotAnAddress(k)) else Ok(v)
  }

  function ReqAmount(o: Fields, k: string): (r: Parsed<int>)
    ensures r.Ok? ==> r.value >= 0
  {
    if k !in o || !o[k].JString? || !IsDecimal(o[k].s) then Err(NotDecimal(k)) else Ok(DecimalValue(o[k].s))
  }

  function ReqInt(o: Fields, k: string): Parsed<int> {
    if k !in o || !o[k].JInt? then Err(NotAnInteger(k)) else Ok(o[k].n)
  }

  function OptAmount(o: Fields, k: string): (r: Parsed<Option<int>>)
    ensures r.Ok? && r.value.Some? ==> r.value.value >= 0
  {
    if k !in o then Ok(None)
    else
      var v :- ReqAmount(o, k);
      Ok(Some(v))
  }

  function OptInt(o: Fields, k: string): Parsed<Option<int>> {
    if k !in o then Ok(None)
    else
      var v :- ReqInt(o, k);
      Ok(Some(v))
  }

  function OptBool(o: Fields, k: string): Parsed<bool> {
    if k !in o then Ok(false)
    else if !o[k].JBool? then Err(NotABoolean(k))
    else Ok(o[k].b)
  }

  // ---- decoders --------------------------------------------------------------------------

  function RiskLevelOf(s: string): Parsed<RiskLevel> {
    if s == "conservative" then Ok(Conservative)
    else if s == "moderate" then Ok(Moderate)
    else if s == "growth" then Ok(Growth)
    else Err(UnknownRiskLevel)
  }

  /** The venues from index i on, or the first that is not an address. */
  function ReadVenues(items: seq<Json>, i: nat): (r: Parsed<seq<string>>)
    requires i <= |items|
    ensures r.Ok? ==> |r.value| == |items| - i
    ensures r.Ok? ==> forall k :: 0 <= k < |r.value| ==> IsAddress(r.value[k]) && items[i + k] == JString(r.value[k])
    decreases |items| - i
  {
    if i == |items| then Ok([])
    else if !items[i].JString? || !IsAddress(items[i].s) then Err(VenueNotAnAddress(i))
    else
      var rest :- ReadVenues(items, i + 1);
      Ok([items[i].s] + rest)
  }

  function ParsePolicy(raw: Json): Parsed<Policy> {
    var o :- AsObject(raw);
    var level :- ReqString(o, "riskLevel");
    var riskLevel :- RiskLevelOf(level);
    if "allowedVenues" !in o || !o["allowedVenues"].JArray? || o["allowedVenues"].items == [] then Err(NoVenues)
    else
      var allowedVenues :- ReadVenues(o["allowedVenues"].items, 0);
      var owner :- ReqAddress(o, "owner");
      var returnAddress :- ReqAddress(o, "returnAddress");
      var asset :- ReqAddress(o, "asset");
      var maxVenueBps :- ReqInt(o, "maxVenueBps");
      var maxTxAmount :- ReqAmount(o, "maxTxAmount");
      var minHealthFactorBps :- ReqInt(o, "minHealthFactorBps");
      Ok(Policy(owner, returnAddress, riskLevel, asset, allowedVenues, maxVenueBps, maxTxAmount, minHealthFactorBps))
  }

  function ParseVaultIntent(kind: IntentKind, raw: Json): Parsed<Intent> {
    var o :- AsObject(raw);
    var asset :- ReqAddress(o, "asset");
    var amount :- ReqAmount(o, "amount");
    var portfolioValue :- OptAmount(o, "portfolioValue");
    var venueBalance :- OptAmount(o, "venueBalance");
    var health :- OptInt(o, "projectedHealthFactorBps");
    if kind == Withdraw then
      var to :- ReqAddress(o, "to");
      var userAuthorized :- OptBool(o, "userAuthorized");
      Ok(Intent(kind, asset, amount, None, Some(to), userAuthorized, portfolioValue, venueBalance, health))
    else
      var venue :- ReqAddress(o, "venue");
      Ok(Intent(kind, asset, amount, Some(venue), None, false, portfolioValue, venueBalance, health))
  }

  // ---- what a decoded payload is like ------------------------------------------------------

  predicate WellFormedPolicy(p: Policy) {
    && IsAddress(p.owner) && IsAddress(p.returnAddress) && IsAddress(p.asset)
    && p.allowedVenues != [] && (forall v :: v in p.allowedVenues ==> IsAddress(v))
    && p.maxTxAmount >= 0
  }

  /** Exactly one of venue and to, the one the kind of intent uses. */
  predicate WellFormedIntent(i: Intent) {
    && IsAddress(i.asset) && i.amount >= 0
    && (i.kind == Withdraw ==> i.venue.None? && i.to.Some? && IsAddress(i.to.value))
    && (i.kind != Withdraw ==> i.to.None? && i.venue.Some? && IsAddress(i.venue.value) && !i.userAuthorized)
    && (i.portfolioValue.Some? ==> i.portfolioValue.value >= 0)
    && (i.venueBalance.Some? ==> i.venueBalance.value >= 0)
  }

  function RiskLevelName(r: RiskLevel): string {
    match r
    case Conservative => "conservative"
    case Moderate => "moderate"
    case Growth => "growth"
  }

  function PrintVenues(vs: seq<string>): seq<Json> {
    seq(|vs|, i requires 0 <= i < |vs| => JString(vs[i]))
  }

  /** The SET_POLICY payload a client sends for a policy. */
  function PrintPolicy(p: Policy): Json
    requires WellFormedPolicy(p)
  {
    JObject(map["owner" := JString(p.owner), "returnAddress" := JString(p.returnAddress),
                "riskLevel" := JString(RiskLevelName(p.riskLevel)), "asset" := JString(p.asset),
                "allowedVenues" := JArray(PrintVenues(p.allowedVenues)),
                "maxVenueBps" := JInt(p.maxVenueBps), "maxTxAmount" := JString(ToDecimal(p.maxTxAmount)),
                "minHealthFactorBps" := JInt(p.minHealthFactorBps)])
  }

  /** The parser returns well-formed policies only, and every one of them from its own payload. */
  lemma PolicyRoundTrip(p: Policy)
    ensures WellFormedPolicy(p) ==> ParsePolicy(PrintPolicy(p)) == Ok(p)
    ensures WellFormedPolicy(p) <==> exists raw :: ParsePolicy(raw) == Ok(p)
  {
    if WellFormedPolicy(p) {
      PrintedPolicyParses(p);
      assert ParsePolicy(PrintPolicy(p)) == Ok(p);
    }
    hide PrintPolicy, ReadVenues, IsAddress, IsDecimal;
  }

  lemma RiskLevelRoundTrip(r: RiskLevel)
    ensures RiskLevelName(r) != "" && RiskLevelOf(RiskLevelName(r)) == Ok(r)
  {
  }

  lemma HeldAddressIsRead(o: Fields, k: string, v: string)
    requires k in o && o[k] == JString(v) && IsAddress(v)
    ensures ReqAddress(o, k) == Ok(v)
  {
  }

  lemma PrintedAddresses(p: Policy)
    requires WellFormedPolicy(p)
    ensures var o := PrintPolicy(p).fields;
      && ReqAddress(o, "owner") == Ok(p.owner)
      && ReqAddress(o, "returnAddress") == Ok(p.returnAddress)
      && ReqAddress(o, "asset") == Ok(p.asset)
  {
    var o := PrintPolicy(p).fields;
    hide IsAddress, ToDecimal, RiskLevelName, ReqAddress;
    HeldAddressIsRead(o, "owner", p.owner);
    HeldAddressIsRead(o, "returnAddress", p.returnAddress);
    HeldAddressIsRead(o, "asset", p.asset);
  }

  lemma PrintedPolicyParses(p: Policy)
    requires WellFormedPolicy(p)
    ensures ParsePolicy(PrintPolicy(p)) == Ok(p)
  {
    hide ToDecimal, DecimalValue, IsDecimal, IsAddress, RiskLevelOf, RiskLevelName, ReqAddress;
    DecimalRoundTrip(p.maxTxAmount);
    RiskLevelRoundTrip(p.riskLevel);
    VenuesRoundTrip(p.allowedVenues, 0);
    PrintedAddresses(p);
    assert p.allowedVenues[0..] == p.allowedVenues;
    hide ReadVenues;
  }

  lemma VenueIsRead(items: seq<Json>, i: nat, v: string)
    requires i < |items| && items[i] == JString(v) && IsAddress(v) && ReadVenues(items, i + 1).Ok?
    ensures ReadVenues(items, i) == Ok([v] + ReadVenues(items, i + 1).value)
  {
    hide IsAddress;
  }

  lemma {:induction false} VenuesRoundTrip(vs: seq<string>, i: nat)
    requires i <= |vs| && forall v :: v in vs ==> IsAddress(v)
    ensures ReadVenues(PrintVenues(vs), i) == Ok(vs[i..])
    decreases |vs| - i
  {
    hide IsAddress;
    if i < |vs| {
      VenuesRoundTrip(vs, i + 1);
      assert PrintVenues(vs)[i] == JString(vs[i]) && vs[i] in vs;
      VenueIsRead(PrintVenues(vs), i, vs[i]);
      assert vs[i..] == [vs[i]] + vs[i + 1..];
      hide ReadVenues;
    } else {
      assert vs[i..] == [];
    }
  }

  predicate HoldsString(o: Fields, k: string, v: string) {
    k in o && o[k] == JString(v)
  }

  predicate HoldsAmount(o: Fields, k: string, v: int) {
    k in o && o[k].JString? && IsDecimal(o[k].s) && DecimalValue(o[k].s) == v
  }

  /** The object says what the intent says; an absent option is an absent field, and null is not absent. */
  predicate Describes(o: Fields, i: Intent) {
    && HoldsString(o, "asset", i.asset)
    && HoldsAmount(o, "amount", i.amount)
    && (if i.portfolioValue.Some? then HoldsAmount(o, "portfolioValue", i.portfolioValue.value)
        else "portfolioValue" !in o)
    && (if i.venueBalance.Some? then HoldsAmount(o, "venueBalance", i.venueBalance.value) else "venueBalance" !in o)
    && (if i.projectedHealthFactorBps.Some? then
          "projectedHealthFactorBps" in o && o["projectedHealthFactorBps"] == JInt(i.projectedHealthFactorBps.value)
        else "projectedHealthFactorBps" !in o)
    && (if i.kind == Withdraw then
          && i.to.Some? && HoldsString(o, "to", i.to.value)
          && (if "userAuthorized" in o then o["userAuthorized"] == JBool(i.userAuthorized) else !i.userAuthorized)
        else i.venue.Some? && HoldsString(o, "venue", i.venue.value))
  }

  predicate HoldsInt(o: Fields, k: string, v: int) {
    k in o && o[k] == JInt(v)
  }

  /** The array lists exactly these strings. */
  predicate ListsStrings(items: seq<Json>, vs: seq<string>) {
    |items| == |vs| && forall k :: 0 <= k < |vs| ==> items[k] == JString(vs[k])
  }

  /** The object has all eight fields of a policy, and says what the policy says. */
  predicate DescribesPolicy(o: Fields, p: Policy) {
    && HoldsString(o, "owner", p.owner)
    && HoldsString(o, "returnAddress", p.returnAddress)
    && HoldsString(o, "riskLevel", RiskLevelName(p.riskLevel))
    && HoldsString(o, "asset", p.asset)
    && "allowedVenues" in o && o["allowedVenues"].JArray? && ListsStrings(o["allowedVenues"].items, p.allowedVenues)
    && HoldsInt(o, "maxVenueBps", p.maxVenueBps)
    && HoldsAmount(o, "maxTxAmount", p.maxTxAmount)
    && HoldsInt(o, "minHealthFactorBps", p.minHealthFactorBps)
  }

  lemma {:induction false} VenuesAreRead(items: seq<Json>, vs: seq<string>, i: nat)
    requires i <= |items| && ListsStrings(items, vs)
    requires forall v :: v in vs ==> IsAddress(v)
    ensures ReadVenues(items, i) == Ok(vs[i..])
    decreases |vs| - i
  {
    hide IsAddress;
    if i < |vs| {
      VenuesAreRead(items, vs, i + 1);
      assert vs[i] in vs;
      VenueIsRead(items, i, vs[i]);
      assert vs[i..] == [vs[i]] + vs[i + 1..];
      hide ReadVenues;
    } else {
      assert vs[i..] == [];
    }
  }

  lemma RiskLevelIsNamed(s: string, r: RiskLevel)
    ensures RiskLevelOf(s) == Ok(r) <==> s == RiskLevelName(r)
  {
  }

  lemma DescribedPolicyIsRead(o: Fields, p: Policy)
    requires WellFormedPolicy(p) && DescribesPolicy(o, p)
    ensures ParsePolicy(JObject(o)) == Ok(p)
  {
    HeldAddressIsRead(o, "owner", p.owner);
    HeldAddressIsRead(o, "returnAddress", p.returnAddress);
    HeldAddressIsRead(o, "asset", p.asset);
    RiskLevelIsNamed(RiskLevelName(p.riskLevel), p.riskLevel);
    assert RiskLevelName(p.riskLevel) != "";
    VenuesAreRead(o["allowedVenues"].items, p.allowedVenues, 0);
    assert p.allowedVenues[0..] == p.allowedVenues;
    hide IsAddress, IsDecimal, DecimalValue, ReqAddress, RiskLevelOf, RiskLevelName, ReadVenues;
  }

  lemma AddressIsHeld(o: Fields, k: string)
    ensures ReqAddress(o, k).Ok? ==> IsAddress(ReqAddress(o, k).value) && HoldsString(o, k, ReqAddress(o, k).value)
  {
    hide IsAddress;
  }

  lemma ReadPolicyIsDescribed(raw: Json, p: Policy)
    requires ParsePolicy(raw) == Ok(p)
    ensures raw.JObject? && WellFormedPolicy(p) && DescribesPolicy(raw.fields, p)
  {
    var o := raw.fields;
    AddressIsHeld(o, "owner");
    AddressIsHeld(o, "returnAddress");
    AddressIsHeld(o, "asset");
    RiskLevelIsNamed(o["riskLevel"].s, p.riskLevel);
    hide IsAddress, IsDecimal, DecimalValue, ReqAddress, RiskLevelOf, RiskLevelName;
    var items := o["allowedVenues"].items;
    assert ReadVenues(items, 0) == Ok(p.allowedVenues);
    forall k | 0 <= k < |p.allowedVenues|
      ensures items[k] == JString(p.allowedVenues[k]) && IsAddress(p.allowedVenues[k])
    {
      assert items[0 + k] == JString(p.allowedVenues[k]);
    }
    hide ReadVenues;
  }

  /** A policy is read from exactly those objects that describe it field by field, if it is well formed. */
  lemma ParsesDescribedPolicy(raw: Json, p: Policy)
    ensures ParsePolicy(raw) == Ok(p) <==> raw.JObject? && WellFormedPolicy(p) && DescribesPolicy(raw.fields, p)
  {
    if ParsePolicy(raw) == Ok(p) {
      ReadPolicyIsDescribed(raw, p);
    }
    if raw.JObject? && WellFormedPolicy(p) && DescribesPolicy(raw.fields, p) {
      DescribedPolicyIsRead(raw.fields, p);
    }
    hide ParsePolicy, WellFormedPolicy, DescribesPolicy;
  }

  lemma ParsedIntentIsWellFormed(kind: IntentKind, raw: Json)
    requires ParseVaultIntent(kind, raw).Ok?
    ensures WellFormedIntent(ParseVaultIntent(kind, raw).value)
    ensures ParseVaultIntent(kind, raw).value.kind == kind
  {
  }

  /** The parser reads an intent from an object if and only if the intent is well formed and the object describes it. */
  lemma ParsesWhatIsDescribed(o: Fields, i: Intent)
    ensures ParseVaultIntent(i.kind, JObject(o)) == Ok(i) <==> WellFormedIntent(i) && Describes(o, i)
  {
    if ParseVaultIntent(i.kind, JObject(o)) == Ok(i) {
      ParsedIntentIsWellFormed(i.kind, JObject(o));
    }
    if WellFormedIntent(i) && Describes(o, i) {
      assert ReqAddress(o, "asset") == Ok(i.asset);
      assert ReqAmount(o, "amount") == Ok(i.amount);
      assert OptAmount(o, "portfolioValue") == Ok(i.portfolioValue);
      assert OptAmount(o, "venueBalance") == Ok(i.venueBalance);
      assert OptInt(o, "projectedHealthFactorBps") == Ok(i.projectedHealthFactorBps);
    }
  }

  // ---- the digest ---------------------------------------------------------------------------

  const ZERO_ADDR := "0x0000000000000000000000000000000000000000"

  function KindCode(kind: IntentKind): byte {
    match kind
    case Allocate => 1
    case Rebalance => 2
    case Withdraw => 3
  }

  /** The contract's own code of the operation. */
  function ContractKind(kind: IntentKind): byte {
    match kind
    case Allocate => V.KIND_ALLOCATE
    case Rebalance => V.KIND_REBALANCE
    case Withdraw => V.KIND_WITHDRAW
  }

  lemma KindCodesAgree(kind: IntentKind)
    ensures KindCode(kind) == ContractKind(kind)
  {
  }

  /** What the digest covers as destination: to before venue. */
  function DestinationOf(i: Intent): string {
    if i.to.Some? then i.to.value else if i.venue.Some? then i.venue.value else ZERO_ADDR
  }

  /** An intent without a destination would be digested for the zero address. */
  lemma NoDestinationIsZero(i: Intent)
    requires i.to == None && i.venue == None
    ensures IsAddress(DestinationOf(i)) && AddressBytes(DestinationOf(i)) == ZERO_ADDRESS
  {
    ZeroAddressDigits();
    hide ZERO_ADDR;
    var s := ZERO_ADDR;
    forall j | 0 <= j < 40
      ensures s[2..][j] == '0'
    {
      assert s[2..][j] == s[2 + j];
    }
    assert IsAddress(s);
    forall k | 0 <= k < 20
      ensures AddressBytes(s)[k] == 0 == ZERO_ADDRESS[k]
    {
      assert s[2..][2 * k] == '0' && s[2..][2 * k + 1] == '0';
    }
    assert AddressBytes(s) == ZERO_ADDRESS;
  }

  lemma ZeroAddressDigits()
    ensures |ZERO_ADDR| == 42 && ZERO_ADDR[0] == '0' && ZERO_ADDR[1] == 'x'
    ensures forall j :: 2 <= j < 42 ==> ZERO_ADDR[j] == '0'
  {
  }

  /** actionDigest; None is the throw of the ABI encoder on an address or a number it cannot encode. */
  function ActionDigest(c: CryptoSuite, i: Intent): Option<Word32> {
    var asset, dest := ToLower(i.asset), ToLower(DestinationOf(i));
    if !IsAddress(asset) || !IsAddress(dest) || !(0 <= i.amount < TWO_256) then None
    else
      var encoded := DecodeHex(A.HexEncode(KindCode(i.kind), asset, i.amount, dest));
      if encoded.Err? then None else Some(c.keccak(encoded.value))
  }

  /** The action of a well-formed intent, in the contract's terms. */
  function ActionOf(i: Intent): A.Action
    requires WellFormedIntent(i)
  {
    A.Action(ContractKind(i.kind), AddressBytes(i.asset), i.amount, AddressBytes(DestinationOf(i)))
  }

  /** The enclave digests exactly the contract's encoding, and throws exactly when the amount is no uint256. */
  lemma ActionDigestIsVaultDigest(c: CryptoSuite, i: Intent)
    requires WellFormedIntent(i)
    ensures ActionDigest(c, i) ==
      if ActionOf(i).Fits() then Some(c.keccak(A.AbiEncode(ActionOf(i)))) else None
  {
    LowerAddress(i.asset);
    LowerAddress(DestinationOf(i));
    KindCodesAgree(i.kind);
    if ActionOf(i).Fits() {
      A.HexEncodeIsAbi(KindCode(i.kind), ToLower(i.asset), i.amount, ToLower(DestinationOf(i)));
    }
  }

  /** The destination the guard looked at. */
  function CheckedDestination(i: Intent): Option<string> {
    if i.kind == Withdraw then i.to else i.venue
  }

  /** The allowlist and the return address, as bytes. */
  predicate PermittedDestination(p: Policy, kind: IntentKind, dest: Address)
    requires WellFormedPolicy(p)
  {
    if kind == Withdraw then dest == AddressBytes(p.returnAddress)
    else exists v :: v in p.allowedVenues && AddressBytes(v) == dest
  }

  /**
   For an intent the guard approved, the digest covers the destination the guard checked if and only if a
   venue intent carries no other to. The parser guarantees that; the guard alone does not.
   */
  lemma SignedDestinationIsChecked(p: Policy, i: Intent)
    requires EvaluateIntent(p, i).allow
    ensures CheckedDestination(i).Some?
    ensures EqAddr(Some(DestinationOf(i)), CheckedDestination(i))
       <==> (i.kind == Withdraw || i.to.None? || EqAddr(i.to, i.venue))
  {
  }

  /** The guard's rules on what a decoded intent means, with addresses as bytes. */
  predicate RulesAllow(p: Policy, i: Intent)
    requires WellFormedPolicy(p) && WellFormedIntent(i)
  {
    && 0 < i.amount <= p.maxTxAmount && AddressBytes(i.asset) == AddressBytes(p.asset)
    && (if i.kind == Withdraw then
          i.userAuthorized && AddressBytes(i.to.value) == AddressBytes(p.returnAddress)
        else
          && (exists v :: v in p.allowedVenues && AddressBytes(v) == AddressBytes(i.venue.value))
          && (p.maxVenueBps < 10000 && i.portfolioValue.Some? && i.portfolioValue.value > 0 ==>
                10000 * ((if i.venueBalance.Some? then i.venueBalance.value else 0) + i.amount)
                <= i.portfolioValue.value * p.maxVenueBps)
          && (i.kind == Rebalance && i.projectedHealthFactorBps.Some? ==>
                i.projectedHealthFactorBps.value >= p.minHealthFactorBps))
  }

  lemma VenueIsListed(vs: seq<string>, venue: string)
    requires IsAddress(venue) && forall v :: v in vs ==> IsAddress(v)
    ensures IsAllowedVenue(vs, Some(venue)) <==> exists v :: v in vs && AddressBytes(v) == AddressBytes(venue)
  {
    forall v | v in vs
      ensures EqAddr(Some(v), Some(venue)) <==> AddressBytes(v) == AddressBytes(venue)
    {
      AddressCase(v, venue);
    }
    hide EqAddr, AddressBytes;
  }

  lemma SameAddress(a: string, b: string)
    requires IsAddress(a) && IsAddress(b)
    ensures EqAddr(Some(a), Some(b)) <==> AddressBytes(a) == AddressBytes(b)
  {
    AddressCase(a, b);
    hide AddressBytes, ToLower;
  }

  /** For every decoded policy and intent, the guard approves exactly what its rules allow on the bytes. */
  lemma ApprovalIsExact(p: Policy, i: Intent)
    requires WellFormedPolicy(p) && WellFormedIntent(i)
    ensures EvaluateIntent(p, i).allow <==> RulesAllow(p, i)
  {
    GuardIsExact(p, i);
    SameAddress(i.asset, p.asset);
    if i.kind == Withdraw {
      SameAddress(i.to.value, p.returnAddress);
    } else {
      VenueIsListed(p.allowedVenues, i.venue.value);
    }
    hide EvaluateIntent, EqAddr, IsAllowedVenue, AddressBytes, IsAddress;
  }

  /** An approved decoded intent signs for the managed asset, within the cap, to a permitted destination. */
  lemma ApprovedActionIsPermitted(p: Policy, i: Intent)
    requires WellFormedPolicy(p) && WellFormedIntent(i)
    requires EvaluateIntent(p, i).allow
    ensures var a := ActionOf(i);
      && a.asset == AddressBytes(p.asset)
      && 0 < a.amount <= p.maxTxAmount
      && PermittedDestination(p, i.kind, a.dest)
  {
    AddressCase(i.asset, p.asset);
    if i.kind == Withdraw {
      AddressCase(i.to.value, p.returnAddress);
    } else {
      var v :| v in p.allowedVenues && EqAddr(Some(v), i.venue);
      AddressCase(v, i.venue.value);
    }
  }
}
