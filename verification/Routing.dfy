/**
 From the wire to the queue: handleRequest and processAction in extension/typescript/src/base/server.ts up to their
 calls of serialize. What they read is JSON, an absent field reads as null.
 */
module Routing {
  import opened Common
  import opened Encoding
  import opened Codec
  import opened Dispatch
  import opened Handlers
  import AE = AsyncEnclave
  import R = HandlerRuns
  import S = Server

  datatype Http = Http(verb: string, path: string, body: bytes)

  /** Answered at once with a status, rejected by an exception that nothing catches, or passed to serialize. */
  datatype Route = Answer(status: nat) | Uncaught | Passed(call: AE.Call)

  function Field(j: Json, name: string): Json {
    if j.JObject? && name in j.fields then j.fields[name] else JNull
  }

  predicate Truthy(j: Json) {
    match j
    case JNull => false
    case JBool(b) => b
    case JInt(n) => n != 0
    case JString(s) => s != ""
    case _ => true
  }

  /** typeof is "object", and it is not null. */
  predicate IsObject(j: Json) {
    j.JObject? || j.JArray?
  }

  /** The path without its query. */
  function Clean(path: string): string {
    if path == "" || path[0] == '?' then "" else [path[0]] + Clean(path[1..])
  }

  /** hexToBytes of a field: an absent one is empty, and on anything but a string it throws. */
  function FieldBytes(j: Json): Option<bytes> {
    match j
    case JNull => Some([])
    case JString(s) => if DecodeHex(s).Ok? then Some(DecodeHex(s).value) else None
    case _ => None
  }

  /** The DataFixed object inside the message of an action, if it gets that far. */
  function Unwrap(env: Env, body: bytes): Option<Json> {
    var action := env.parseJson(body);
    if action.None? || !IsObject(action.value) || !Truthy(Field(action.value, "data")) then None
    else
      var raw := FieldBytes(Field(Field(action.value, "data"), "message"));
      if raw.None? then None
      else
        var df := env.parseJson(raw.value);
        if df.None? || !IsObject(df.value) || !Truthy(Field(df.value, "opType")) then None else df
  }

  /** Every handler answers a message that is no string as it answers malformed hex. */
  const NOT_HEX := "??"

  /** originalMessage, or else message, or else no bytes. */
  function MessageOf(df: Json): string {
    var original := Field(df, "originalMessage");
    var chosen := if original.JNull? then Field(df, "message") else original;
    if chosen.JNull? then "0x" else if chosen.JString? then chosen.s else NOT_HEX
  }

  function RequestFor(op: Op, msg: string): Request {
    match op
    case OpUpdateKey => UpdateKey(msg)
    case OpCreate => CreateWallet(msg)
    case OpSetPolicy => SetPolicy(msg)
    case OpConfirmDeposit => ConfirmDeposit(msg)
    case OpAction(kind) => VaultAction(kind, msg)
  }

  /** normalize looks at a truthy identifier with toLowerCase, which only strings have. */
  predicate Comparable(id: Json) {
    id.JString? || !Truthy(id)
  }

  function Identifier(id: Json): string {
    if id.JString? then id.s else ""
  }

  function RouteOf(env: Env, h: Http): Route {
    if Clean(h.path) == "/action" then
      if h.verb != "POST" then Answer(405)
      else
        var df := Unwrap(env, h.body);
        if df.None? then Answer(400)
        else
          var opType, opCommand := Field(df.value, "opType"), Field(df.value, "opCommand");
          if !Comparable(opType) || !Comparable(opCommand) then Uncaught
          else
            var op := Find(Registrations(), Identifier(opType), Identifier(opCommand));
            if op.None? then Answer(501) else Passed(AE.Handle(RequestFor(op.value, MessageOf(df.value))))
    else if Clean(h.path) == "/state" then
      if h.verb == "GET" then Passed(AE.ReadState) else Answer(405)
    else Answer(404)
  }

  // ---- which request reaches which handler --------------------------------------------------------

  /** The action's identifiers are, as bytes, the names of operation i. */
  predicate Asks(env: Env, h: Http, i: nat)
    requires i < |OPERATIONS|
  {
    && Clean(h.path) == "/action" && h.verb == "POST" && Unwrap(env, h.body).Some?
    && var df := Unwrap(env, h.body).value;
    && Field(df, "opType").JString? && Field(df, "opCommand").JString?
    && Names(Field(df, "opType").s, Field(df, "opCommand").s, i)
  }

  lemma NoNameIsAbsent(opType: string, opCommand: string, i: nat)
    requires i < |OPERATIONS| && Names(opType, opCommand, i)
    ensures opType != "" && opCommand != ""
  {
    assert DecodeHex("") == Ok([]);
    hide OPERATIONS, OpId;
  }

  /** The request is that of operation i. */
  predicate IsRequestOf(env: Env, h: Http, req: Request, i: nat)
    requires i < |OPERATIONS|
  {
    Asks(env, h, i) && req == RequestFor(OPERATIONS[i].2, MessageOf(Unwrap(env, h.body).value))
  }

  /** As far as RouteOf goes once the action is unwrapped. */
  lemma RouteOfAction(env: Env, h: Http)
    requires Clean(h.path) == "/action" && h.verb == "POST" && Unwrap(env, h.body).Some?
    ensures var df := Unwrap(env, h.body).value;
      var opType, opCommand := Field(df, "opType"), Field(df, "opCommand");
      var op := Find(Registrations(), Identifier(opType), Identifier(opCommand));
      RouteOf(env, h) ==
        if !Comparable(opType) || !Comparable(opCommand) then Uncaught
        else if op.None? then Answer(501)
        else Passed(AE.Handle(RequestFor(op.value, MessageOf(df))))
  {
    hide Unwrap, Find, Registrations, MessageOf, RequestFor, Clean, Field;
  }

  lemma AskedIsRouted(env: Env, h: Http, req: Request, i: nat)
    requires i < |OPERATIONS| && IsRequestOf(env, h, req, i)
    ensures RouteOf(env, h) == Passed(AE.Handle(req))
  {
    hide OPERATIONS, Names, Find, Unwrap, MessageOf, RequestFor, Clean, Registrations, RouteOf;
    var df := Unwrap(env, h.body).value;
    RouteOfAction(env, h);
    EachOperationReachesItsHandler(Field(df, "opType").s, Field(df, "opCommand").s);
  }

  /** What is passed on as a handler is that of some operation. */
  lemma RoutedIsAsked(env: Env, h: Http, req: Request)
    requires RouteOf(env, h) == Passed(AE.Handle(req))
    ensures exists i :: 0 <= i < |OPERATIONS| && IsRequestOf(env, h, req, i)
  {
    hide OPERATIONS, Names, Find, Unwrap, MessageOf, RequestFor, Clean, Registrations;
    var df := Unwrap(env, h.body).value;
    var opType, opCommand := Identifier(Field(df, "opType")), Identifier(Field(df, "opCommand"));
    RouteOfAction(env, h);
    hide RouteOf;
    EachOperationReachesItsHandler(opType, opCommand);
    var i :| 0 <= i < |OPERATIONS| && Names(opType, opCommand, i);
    NoNameIsAbsent(opType, opCommand, i);
    assert IsRequestOf(env, h, req, i);
  }

  /**
   A handler is passed to serialize exactly for the POST of an action that names its operation, with that action's
   message; and an exception escapes exactly for an identifier that is truthy and no string.
   */
  lemma RoutesByName(env: Env, h: Http)
    ensures forall req ::
      RouteOf(env, h) == Passed(AE.Handle(req)) <==> exists i :: 0 <= i < |OPERATIONS| && IsRequestOf(env, h, req, i)
    ensures RouteOf(env, h) == Uncaught <==>
      && Clean(h.path) == "/action" && h.verb == "POST" && Unwrap(env, h.body).Some?
      && exists f :: f in {"opType", "opCommand"}
           && Truthy(Field(Unwrap(env, h.body).value, f)) && !Field(Unwrap(env, h.body).value, f).JString?
  {
    forall req, i | 0 <= i < |OPERATIONS| && IsRequestOf(env, h, req, i)
      ensures RouteOf(env, h) == Passed(AE.Handle(req))
    {
      AskedIsRouted(env, h, req, i);
    }
    forall req | RouteOf(env, h) == Passed(AE.Handle(req))
      ensures exists i :: 0 <= i < |OPERATIONS| && IsRequestOf(env, h, req, i)
    {
      RoutedIsAsked(env, h, req);
    }
    hide OPERATIONS, Unwrap, Find, IsRequestOf, Registrations;
  }

  // ---- the whole server ----------------------------------------------------------------------------

  datatype WireEvent = Incoming(h: Http) | Microtask | Resolved(i: nat, v: Option<bytes>)

  type EnclaveSystem = S.System<EnclaveState, Continuation, Option<bytes>, AE.Answer>

  /** A request that is not passed on never reaches the queue. */
  ghost function WireStep(env: Env, sys: EnclaveSystem, e: WireEvent): EnclaveSystem {
    match e
    case Incoming(h) =>
      (match RouteOf(env, h)
       case Passed(call) => S.Step(sys, S.Arrive(AE.TaskOf(env, call)))
       case _ => sys)
    case Microtask => S.Step(sys, S.RunMicrotask)
    case Resolved(i, v) => S.Step(sys, S.Resolve(i, v))
  }

  ghost function WireRun(env: Env, events: seq<WireEvent>): EnclaveSystem {
    if events == [] then S.Initial(R.INITIAL)
    else WireStep(env, WireRun(env, events[..|events| - 1]), events[|events| - 1])
  }

  /** The calls that pass, in order of arrival. */
  function PassedCalls(env: Env, events: seq<WireEvent>): seq<AE.Call> {
    if events == [] then []
    else
      var last := events[|events| - 1];
      PassedCalls(env, events[..|events| - 1]) +
      (if last.Incoming? && RouteOf(env, last.h).Passed? then [RouteOf(env, last.h).call] else [])
  }

  function Queued(env: Env, events: seq<WireEvent>): seq<AE.AsyncEvent> {
    if events == [] then []
    else
      Queued(env, events[..|events| - 1]) +
      match events[|events| - 1]
      case Incoming(h) => if RouteOf(env, h).Passed? then [AE.Request(RouteOf(env, h).call)] else []
      case Microtask => [AE.Microtask]
      case Resolved(i, v) => [AE.Resolved(i, v)]
  }

  ghost function ServerEvents(env: Env, events: seq<AE.AsyncEvent>):
    seq<S.Event<EnclaveState, Continuation, Option<bytes>, AE.Answer>>
  {
    seq(|events|, i requires 0 <= i < |events| => AE.ServerEvent(env, events[i]))
  }

  lemma {:induction false} WireRunIsServerRun(env: Env, events: seq<WireEvent>)
    ensures WireRun(env, events) == S.Steps(S.Initial(R.INITIAL), ServerEvents(env, Queued(env, events)))
    ensures AE.Calls(Queued(env, events)) == PassedCalls(env, events)
  {
    hide RouteOf, S.Step, AE.TaskOf;
    if events != [] {
      var n := |events| - 1;
      WireRunIsServerRun(env, events[..n]);
      var before, all := Queued(env, events[..n]), Queued(env, events);
      if |all| > |before| {
        assert all[..|all| - 1] == before;
        var es := ServerEvents(env, all);
        assert es[..|es| - 1] == ServerEvents(env, before);
      } else {
        assert all == before;
      }
    }
  }

  /**
   For any interleaving of HTTP requests, microtasks and resolved awaits: the handlers of the requests that pass, and
   the state reads, answer as if run one at a time in the order in which these requests came.
   */
  lemma WireIsServedInOrder(env: Env, events: seq<WireEvent>)
    ensures var js, calls := WireRun(env, events).js, PassedCalls(env, events);
      var m := |js.settled|;
      && m <= |calls| == |js.inputs| && |js.awaiting| <= 1
      && var (s, answers) := AE.OneAtATime(env, calls[..m], AE.FirstInputs(js.inputs[..m]));
      && (forall i :: 0 <= i < m ==> js.settled[i] == (i, answers[i]))
      && (js.awaiting == map[] ==> js.shared == s)
      && (js.awaiting == map[] && js.jobs == [] ==> m == |calls|)
  {
    hide AE.OneAtATime, S.Steps, Queued, PassedCalls, WireRun;
    WireRunIsServerRun(env, events);
    AE.ServerRunsEnclaveSequentially(env, Queued(env, events));
  }
}
