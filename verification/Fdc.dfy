/** Model of extension/typescript/src/app/fdc.ts: the deposit check. */
module Fdc {
  import opened Common
  import opened Encoding
  import opened Codec

  const PAYMENT_STATUS_SUCCESS := 0

  /** 32-byte identifiers are hex strings in any letter case. */
  datatype PaymentResponse = PaymentResponse(
    status: nat,
    sourceId: string,
    receivingAddressHash: string,
    receivedAmount: nat,
    standardPaymentReference: string)

  datatype ExpectedDeposit = ExpectedDeposit(
    sourceId: string,
    receivingAddressHash: string,
    minAmount: nat,
    reference: string)

  datatype Deposit = Deposit(proof: PaymentResponse, expected: ExpectedDeposit)

  datatype DepositCode =
    | OK
    | DEPOSIT_NOT_SUCCESSFUL
    | WRONG_SOURCE
    | WRONG_RECIPIENT
    | AMOUNT_TOO_LOW
    | WRONG_REFERENCE

  datatype DepositError =
    | NotObject(what: string)
    | NotBytes32(field: string)
    | NotUint(field: string)
    | NotAmount(field: string)

  type Read<T> = Result<T, DepositError>

  predicate IsBytes32(s: string) {
    |s| == 66 && s[0] == '0' && s[1] == 'x' && IsHex(s[2..])
  }

  function Obj(v: Option<Json>, what: string): Read<Fields> {
    if v.None? || !v.value.JObject? then Err(NotObject(what)) else Ok(v.value.fields)
  }

  function Field(o: Fields, k: string): Option<Json> {
    if k in o then Some(o[k]) else None
  }

  function Hex32(o: Fields, k: string): (r: Read<string>)
    ensures r.Ok? ==> IsBytes32(r.value)
  {
    if k !in o || !o[k].JString? || !IsBytes32(o[k].s) then Err(NotBytes32(k)) else Ok(o[k].s)
  }

  function Uint(o: Fields, k: string): Read<nat> {
    if k !in o || !o[k].JInt? || o[k].n < 0 then Err(NotUint(k)) else Ok(o[k].n)
  }

  function Amount(o: Fields, k: string): Read<nat> {
    if k !in o || !o[k].JString? || !IsDecimal(o[k].s) then Err(NotAmount(k)) else Ok(DecimalValue(o[k].s))
  }

  function ParseConfirmDeposit(raw: Json): Read<Deposit> {
    var o :- Obj(Some(raw), "payload");
    var p :- Obj(Field(o, "proof"), "proof");
    var e :- Obj(Field(o, "expected"), "expected");
    var status :- Uint(p, "status");
    var sourceId :- Hex32(p, "sourceId");
    var recipient :- Hex32(p, "receivingAddressHash");
    var received :- Amount(p, "receivedAmount");
    var reference :- Hex32(p, "standardPaymentReference");
    var expSource :- Hex32(e, "sourceId");
    var expRecipient :- Hex32(e, "receivingAddressHash");
    var minAmount :- Amount(e, "minAmount");
    var expReference :- Hex32(e, "reference");
    Ok(Deposit(PaymentResponse(status, sourceId, recipient, received, reference),
               ExpectedDeposit(expSource, expRecipient, minAmount, expReference)))
  }

  predicate HoldsBytes32(o: Fields, k: string, v: string) {
    HoldsString(o, k, v) && IsBytes32(v)
  }

  predicate HoldsObject(o: Fields, k: string) {
    k in o && o[k].JObject?
  }

  /** The object's proof and its expectation, each from its own fields, say what the deposit says. */
  predicate DescribesDeposit(o: Fields, d: Deposit) {
    && HoldsObject(o, "proof") && HoldsObject(o, "expected")
    && var (p, e) := (o["proof"].fields, o["expected"].fields);
    && HoldsInt(p, "status", d.proof.status)
    && HoldsBytes32(p, "sourceId", d.proof.sourceId)
    && HoldsBytes32(p, "receivingAddressHash", d.proof.receivingAddressHash)
    && HoldsAmount(p, "receivedAmount", d.proof.receivedAmount)
    && HoldsBytes32(p, "standardPaymentReference", d.proof.standardPaymentReference)
    && HoldsBytes32(e, "sourceId", d.expected.sourceId)
    && HoldsBytes32(e, "receivingAddressHash", d.expected.receivingAddressHash)
    && HoldsAmount(e, "minAmount", d.expected.minAmount)
    && HoldsBytes32(e, "reference", d.expected.reference)
  }

  /** A deposit is read from exactly those objects that describe it field by field. */
  lemma ParsesDescribedDeposit(raw: Json, d: Deposit)
    ensures ParseConfirmDeposit(raw) == Ok(d) <==> raw.JObject? && DescribesDeposit(raw.fields, d)
  {
    hide IsBytes32, IsDecimal, DecimalValue;
  }

  /** A 32-byte identifier is 0x and two digits of either case for each byte. */
  lemma Bytes32Spellings(s: string)
    ensures IsBytes32(s) <==> "0x" <= s && exists w: Word32 :: DecodeHex(s) == Ok(w)
    ensures IsBytes32(s) ==> DecodeHex(s) == Ok(Bytes32(s))
  {
    assert "0x" <= s ==> StripPrefix(s) == s[2..];
    if IsBytes32(s) {
      var w: Word32 := Bytes32(s);
      assert DecodeHex(s) == Ok(w);
    }
  }

  function ValidatePaymentProof(d: Deposit): DepositCode {
    var r, e := d.proof, d.expected;
    if r.status != PAYMENT_STATUS_SUCCESS then DEPOSIT_NOT_SUCCESSFUL
    else if ToLower(r.sourceId) != ToLower(e.sourceId) then WRONG_SOURCE
    else if ToLower(r.receivingAddressHash) != ToLower(e.receivingAddressHash) then WRONG_RECIPIENT
    else if r.receivedAmount < e.minAmount then AMOUNT_TOO_LOW
    else if ToLower(r.standardPaymentReference) != ToLower(e.reference) then WRONG_REFERENCE
    else OK
  }

  function Bytes32(s: string): bytes
    requires IsBytes32(s)
  {
    DigitsToBytes(s[2..])
  }

  lemma SameBytes32(s: string, t: string)
    requires IsBytes32(s) && IsBytes32(t)
    ensures ToLower(s) == ToLower(t) <==> Bytes32(s) == Bytes32(t)
  {
    CaseInsensitiveDigits(s[2..], t[2..]);
    assert ToLower(s)[..2] == ToLower(t)[..2] == "0x";
    assert ToLower(s) == ToLower(s)[..2] + ToLower(s)[2..];
    assert ToLower(t) == ToLower(t)[..2] + ToLower(t)[2..];
    assert ToLower(s)[2..] == ToLower(s[2..]);
    assert ToLower(t)[2..] == ToLower(t[2..]);
  }

  /** The first thing that is wrong with a decoded deposit, with its identifiers compared as bytes. */
  lemma AcceptedDepositIsExact(raw: Json)
    requires ParseConfirmDeposit(raw).Ok?
    ensures var d := ParseConfirmDeposit(raw).value;
      var (p, x) := (d.proof, d.expected);
      && IsBytes32(p.sourceId) && IsBytes32(x.sourceId)
      && IsBytes32(p.receivingAddressHash) && IsBytes32(x.receivingAddressHash)
      && IsBytes32(p.standardPaymentReference) && IsBytes32(x.reference)
      && var success := p.status == 0;
         var source := Bytes32(p.sourceId) == Bytes32(x.sourceId);
         var recipient := Bytes32(p.receivingAddressHash) == Bytes32(x.receivingAddressHash);
         var enough := p.receivedAmount >= x.minAmount;
         var reference := Bytes32(p.standardPaymentReference) == Bytes32(x.reference);
         var code := ValidatePaymentProof(d);
      && (code == OK <==> success && source && recipient && enough && reference)
      && (code == WRONG_REFERENCE <==> success && source && recipient && enough && !reference)
      && (code == AMOUNT_TOO_LOW <==> success && source && recipient && !enough)
      && (code == WRONG_RECIPIENT <==> success && source && !recipient)
      && (code == WRONG_SOURCE <==> success && !source)
  {
    var d := ParseConfirmDeposit(raw).value;
    SameBytes32(d.proof.sourceId, d.expected.sourceId);
    SameBytes32(d.proof.receivingAddressHash, d.expected.receivingAddressHash);
    SameBytes32(d.proof.standardPaymentReference, d.expected.reference);
    hide ToLower, Bytes32;
  }
}
