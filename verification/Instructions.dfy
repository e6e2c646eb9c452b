/**
 From the contract's forwarding calls to the enclave's handlers: an instruction that InstructionSender.sol sends, posted
 to the server as an action, is passed to the handler of its own operation with its own message.
 */
module Instructions {
  import opened Common
  import opened Encoding
  import opened PolicyGuard
  import opened Codec
  import opened Dispatch
  import opened Handlers
  import opened Routing
  import AE = AsyncEnclave

  /** The contract's forwarding functions. */
  datatype Instruction =
    | SendUpdateKey
    | SendCreate
    | SendSetPolicy
    | SendConfirmDeposit
    | SendAllocate
    | SendRebalance
    | SendWithdraw

  /** The name in the contract's OP_TYPE constant that the function passes on. */
  function TypeName(i: Instruction): string {
    if i in {SendUpdateKey, SendCreate} then "WALLET" else "VAULT"
  }

  /** The name in its OP_COMMAND constant. */
  function CommandName(i: Instruction): string {
    match i
    case SendUpdateKey => "UPDATE_KEY"
    case SendCreate => "CREATE"
    case SendSetPolicy => "SET_POLICY"
    case SendConfirmDeposit => "CONFIRM_DEPOSIT"
    case SendAllocate => "ALLOCATE"
    case SendRebalance => "REBALANCE"
    case SendWithdraw => "WITHDRAW"
  }

  /** What the enclave is meant to do with it. */
  function Meant(i: Instruction, msg: string): Request {
    match i
    case SendUpdateKey => UpdateKey(msg)
    case SendCreate => CreateWallet(msg)
    case SendSetPolicy => SetPolicy(msg)
    case SendConfirmDeposit => ConfirmDeposit(msg)
    case SendAllocate => VaultAction(Allocate, msg)
    case SendRebalance => VaultAction(Rebalance, msg)
    case SendWithdraw => VaultAction(Withdraw, msg)
  }

  /** The instruction's place among the registered operations. */
  function PlaceOf(i: Instruction): nat {
    match i
    case SendUpdateKey => 0
    case SendCreate => 1
    case SendSetPolicy => 2
    case SendConfirmDeposit => 3
    case SendAllocate => 4
    case SendRebalance => 5
    case SendWithdraw => 6
  }

  /** bytes32 of a name: its bytes, then zeros. */
  function Bytes32Of(name: string): Word32
    requires IsName(name)
  {
    Pad32(Utf8(name))
  }

  lemma NamesAreNames(i: Instruction)
    ensures IsName(TypeName(i)) && IsName(CommandName(i))
  {
  }

  lemma PlaceIsNamed(i: Instruction)
    ensures PlaceOf(i) < |OPERATIONS|
    ensures OPERATIONS[PlaceOf(i)].0 == TypeName(i) && OPERATIONS[PlaceOf(i)].1 == CommandName(i)
  {
  }

  lemma {:induction false} PathWithoutQuery(path: string, query: string)
    requires '?' !in path
    ensures Clean(path) == path && Clean(path + "?" + query) == path
  {
    if path == "" {
      assert path + "?" + query == "?" + query;
    } else {
      PathWithoutQuery(path[1..], query);
      assert (path + "?" + query)[1..] == path[1..] + "?" + query;
    }
  }

  /** A field that carries the bytes: hex of any case, or absent for none. */
  predicate CarriesBytes(j: Json, raw: bytes) {
    (j == JNull && raw == []) || (j.JString? && DecodeHex(j.s) == Ok(raw))
  }

  /** JavaScript's falsy values. */
  predicate Falsy(j: Json) {
    j in {JNull, JBool(false), JInt(0), JString("")}
  }

  /** The object is the DataFixed of the posted action. */
  predicate Posts(env: Env, body: bytes, raw: bytes, df: Json) {
    && env.parseJson(body).Some?
    && var action := env.parseJson(body).value;
    && (action.JObject? || action.JArray?) && !Falsy(Field(action, "data"))
    && CarriesBytes(Field(Field(action, "data"), "message"), raw) && env.parseJson(raw) == Some(df)
    && (df.JObject? || df.JArray?) && !Falsy(Field(df, "opType"))
  }

  lemma TruthyIsNotFalsy(j: Json)
    ensures Truthy(j) <==> !Falsy(j)
  {
  }

  /** What is unwrapped from a body is exactly what it posts. */
  lemma UnwrapsExactly(env: Env, body: bytes, df: Json)
    ensures Unwrap(env, body) == Some(df) <==> exists raw :: Posts(env, body, raw, df)
  {
    if env.parseJson(body).Some? {
      var action := env.parseJson(body).value;
      TruthyIsNotFalsy(Field(action, "data"));
      TruthyIsNotFalsy(Field(df, "opType"));
      var m := Field(Field(action, "data"), "message");
      hide Truthy, Falsy, DecodeHex;
      forall raw
        ensures CarriesBytes(m, raw) <==> FieldBytes(m) == Some(raw)
      {
      }
      if Unwrap(env, body) == Some(df) {
        assert Posts(env, body, FieldBytes(m).value, df);
      }
    }
    hide Truthy, Falsy, DecodeHex, Field;
  }

  /** The statuses that are answered without reaching a handler, each with its condition. */
  lemma StatusesAreExact(env: Env, h: Http)
    ensures RouteOf(env, h) == Answer(404) <==> Clean(h.path) !in {"/action", "/state"}
    ensures RouteOf(env, h) == Answer(405) <==>
      (Clean(h.path) == "/action" && h.verb != "POST") || (Clean(h.path) == "/state" && h.verb != "GET")
    ensures RouteOf(env, h) == Answer(400) <==>
      && Clean(h.path) == "/action" && h.verb == "POST"
      && forall df, raw :: !Posts(env, h.body, raw, df)
    ensures RouteOf(env, h) == Passed(AE.ReadState) <==> Clean(h.path) == "/state" && h.verb == "GET"
    ensures RouteOf(env, h).Answer? ==> RouteOf(env, h).status in {400, 404, 405, 501}
  {
    if Unwrap(env, h.body).Some? {
      UnwrapsExactly(env, h.body, Unwrap(env, h.body).value);
    }
    forall df, raw | Posts(env, h.body, raw, df)
      ensures Unwrap(env, h.body) == Some(df)
    {
      UnwrapsExactly(env, h.body, df);
    }
    hide Unwrap, Posts, Find, MessageOf, RequestFor, Clean, Registrations, Comparable;
  }

  /** The message that the action carries: originalMessage, or message where that is absent, or no bytes. */
  predicate CarriesMessage(df: Json, msg: string) {
    var original, direct := Field(df, "originalMessage"), Field(df, "message");
    || original == JString(msg)
    || (original == JNull && direct == JString(msg))
    || (original == JNull && direct == JNull && msg == "0x")
  }

  lemma MeantByPlace(i: Instruction, msg: string)
    ensures PlaceOf(i) < |OPERATIONS| && RequestFor(OPERATIONS[PlaceOf(i)].2, msg) == Meant(i, msg)
  {
  }

  /**
   Each forwarding function of the contract reaches its own handler: an action posted to /action, with or without a
   query, whose identifiers are the function's two bytes32 constants in hex of any case, is passed to serialize as the
   request that is meant, with the message it carries.
   */
  lemma InstructionReachesItsHandler(env: Env, h: Http, i: Instruction, raw: bytes, df: Json, msg: string)
    requires h.verb == "POST" && Clean(h.path) == "/action" && Posts(env, h.body, raw, df) && CarriesMessage(df, msg)
    requires IsName(TypeName(i)) && IsName(CommandName(i))
    requires Field(df, "opType").JString? && DecodeHex(Field(df, "opType").s) == Ok(Bytes32Of(TypeName(i)))
    requires Field(df, "opCommand").JString? && DecodeHex(Field(df, "opCommand").s) == Ok(Bytes32Of(CommandName(i)))
    ensures RouteOf(env, h) == Passed(AE.Handle(Meant(i, msg)))
  {
    hide Posts, Clean, OPERATIONS, DecodeHex, RouteOf, Find, TypeName, CommandName, Meant, RequestFor, Unwrap;
    UnwrapsExactly(env, h.body, df);
    NamesAreNames(i);
    PlaceIsNamed(i);
    MeantByPlace(i, msg);
    assert MessageOf(df) == msg;
    assert IsRequestOf(env, h, Meant(i, msg), PlaceOf(i));
    AskedIsRouted(env, h, Meant(i, msg), PlaceOf(i));
  }
}
