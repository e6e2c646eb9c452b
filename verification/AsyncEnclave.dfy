/** The enclave's handlers on the async server: processAction and processState of server.ts over handlers.ts. */
module AsyncEnclave {
  import opened Common
  import opened Handlers
  import B = Bookkeeping
  import G = Signing
  import R = HandlerRuns
  import S = Server
  import T = Tenants

  /** What is passed to serialize: a handler with its message, or the state report. */
  datatype Call = Handle(req: Request) | ReadState

  datatype Answer = Answered(outcome: Outcome) | Reported(report: StateReport)

  type EnclaveProgress = S.Progress<Continuation, Answer>

  ghost function ReportOf(s: EnclaveState): StateReport {
    StateReport(s.seed.Some?, |s.users|, Total(s.users, SignedActions), Total(s.users, RefusedActions),
                Total(s.users, ConfirmedDeposits))
  }

  /** An aborted handler is a rejected promise. */
  function Lift(p: Progress): EnclaveProgress {
    match p
    case Await(k) => S.Yield(k)
    case Done(Aborted) => S.Throw
    case Done(o) => S.Return(Answered(o))
  }

  ghost function Start(env: Env, call: Call, s: EnclaveState): (EnclaveState, EnclaveProgress) {
    match call
    case Handle(req) =>
      var (s', p) := Begin(env, s, req);
      (s', Lift(p))
    case ReadState => (s, S.Return(Reported(ReportOf(s))))
  }

  ghost function Continue(env: Env, s: EnclaveState, k: Continuation,
                          v: Option<bytes>): (EnclaveState, EnclaveProgress) {
    var (s', o) := Resume(env, s, k, v);
    (s', Lift(Done(o)))
  }

  type EnclaveTask = S.Task<EnclaveState, Continuation, Option<bytes>, Answer>

  ghost function TaskOf(env: Env, call: Call): EnclaveTask {
    S.Task(s => Start(env, call, s), (s, k, v) => Continue(env, s, k, v))
  }

  datatype AsyncEvent = Request(call: Call) | Microtask | Resolved(i: nat, v: Option<bytes>)

  ghost function ServerEvent(env: Env, e: AsyncEvent): S.Event<EnclaveState, Continuation, Option<bytes>, Answer> {
    match e
    case Request(call) => S.Arrive(TaskOf(env, call))
    case Microtask => S.RunMicrotask
    case Resolved(i, v) => S.Resolve(i, v)
  }

  ghost function ServerRun(env: Env,
                           events: seq<AsyncEvent>): S.Runtime<EnclaveState, Continuation, Option<bytes>, Answer> {
    S.Steps(S.Initial(R.INITIAL), seq(|events|, i requires 0 <= i < |events| => ServerEvent(env, events[i]))).js
  }

  /** The calls in the order in which they reached the server. */
  function Calls(events: seq<AsyncEvent>): seq<Call> {
    if events == [] then []
    else
      var last := events[|events| - 1];
      Calls(events[..|events| - 1]) + (if last.Request? then [last.call] else [])
  }

  // ---- one call at a time --------------------------------------------------------------

  ghost function RunCall(env: Env, s: EnclaveState, call: Call,
                         awaited: Option<bytes>): (EnclaveState, EnclaveProgress) {
    match call
    case Handle(req) =>
      var (s', o) := Apply(env, s, req, awaited);
      (s', Lift(Done(o)))
    case ReadState => Start(env, call, s)
  }

  ghost function OneAtATime(env: Env, calls: seq<Call>,
                            awaited: seq<Option<bytes>>): (r: (EnclaveState, seq<EnclaveProgress>))
    requires |calls| == |awaited|
    ensures |r.1| == |calls|
  {
    if calls == [] then (R.INITIAL, [])
    else
      var n := |calls| - 1;
      var (before, answers) := OneAtATime(env, calls[..n], awaited[..n]);
      var (after, answer) := RunCall(env, before, calls[n], awaited[n]);
      (after, answers + [answer])
  }

  function FirstInput(inputs: seq<Option<bytes>>): Option<bytes> {
    if inputs == [] then None else inputs[0]
  }

  lemma {:induction false} DriveIsRunCall(env: Env, call: Call, s: EnclaveState, inputs: seq<Option<bytes>>)
    ensures var r := S.Drive(TaskOf(env, call), s, inputs);
      !r.1.Yield? || inputs != [] ==> r == RunCall(env, s, call, FirstInput(inputs)) && !r.1.Yield?
  {
    hide Begin, Resume, ReportOf;
    if inputs != [] {
      var n := |inputs| - 1;
      DriveIsRunCall(env, call, s, inputs[..n]);
      assert n > 0 ==> inputs[..n][0] == inputs[0];
    }
  }

  function FirstInputs(inputs: seq<seq<Option<bytes>>>): (r: seq<Option<bytes>>)
    ensures |r| == |inputs|
  {
    seq(|inputs|, i requires 0 <= i < |inputs| => FirstInput(inputs[i]))
  }

  lemma {:induction false} SequentialIsOneAtATime(env: Env, calls: seq<Call>, tasks: seq<EnclaveTask>,
                                                  inputs: seq<seq<Option<bytes>>>)
    requires |calls| == |tasks| == |inputs|
    requires forall i :: 0 <= i < |calls| ==> tasks[i] == TaskOf(env, calls[i])
    requires forall i :: 0 <= i < |calls| ==> !S.Sequential(tasks, inputs, R.INITIAL).1[i].Yield?
    ensures S.Sequential(tasks, inputs, R.INITIAL) == OneAtATime(env, calls, FirstInputs(inputs))
  {
    hide TaskOf, RunCall, S.Drive;
    if calls != [] {
      var n := |calls| - 1;
      var (before, answers) := S.Sequential(tasks[..n], inputs[..n], R.INITIAL);
      var all := S.Sequential(tasks, inputs, R.INITIAL).1;
      assert all[..n] == answers;
      assert forall i :: 0 <= i < n ==> answers[i] == all[i];
      SequentialIsOneAtATime(env, calls[..n], tasks[..n], inputs[..n]);
      assert FirstInputs(inputs)[..n] == FirstInputs(inputs[..n]);
      assert !all[n].Yield?;
      DriveIsRunCall(env, calls[n], before, inputs[n]);
    }
  }

  lemma {:induction false} TasksAreCalls(env: Env, events: seq<AsyncEvent>)
    ensures var js := ServerRun(env, events);
      |js.tasks| == |Calls(events)| && forall i :: 0 <= i < |js.tasks| ==> js.tasks[i] == TaskOf(env, Calls(events)[i])
  {
    hide TaskOf;
    if events != [] {
      var n := |events| - 1;
      TasksAreCalls(env, events[..n]);
      var all := seq(|events|, i requires 0 <= i < |events| => ServerEvent(env, events[i]));
      assert all[..n] == seq(n, i requires 0 <= i < n => ServerEvent(env, events[..n][i]));
      QueueInBounds(env, events[..n]);
      StepTasks(S.Steps(S.Initial(R.INITIAL), all[..n]), all[n]);
      hide S.Step;
    }
  }

  lemma QueueInBounds(env: Env, events: seq<AsyncEvent>)
    ensures
      var es := seq(|events|, i requires 0 <= i < |events| => ServerEvent(env, events[i]));
      var sys := S.Steps(S.Initial(R.INITIAL), es);
      sys.queue < |sys.js.promises|
  {
    var es := seq(|events|, i requires 0 <= i < |events| => ServerEvent(env, events[i]));
    S.RunKeepsInv(R.INITIAL, es);
    hide S.Linear, S.Steps;
  }

  lemma StepTasks<A, L, V, B>(sys: S.System<A, L, V, B>, e: S.Event<A, L, V, B>)
    requires sys.queue < |sys.js.promises|
    ensures S.Step(sys, e).js.tasks == sys.js.tasks + (if e.Arrive? then [e.fn] else [])
  {
  }

  /**
   For any interleaving of requests, microtasks and resolved awaits, the enclave behind the server answers each
   request and each state read, and is left, as if it had handled them one at a time in order of arrival.
   */
  lemma ServerRunsEnclaveSequentially(env: Env, events: seq<AsyncEvent>)
    ensures var js := ServerRun(env, events);
      var m := |js.settled|;
      && m <= |Calls(events)| && |js.inputs| == |Calls(events)| && |js.awaiting| <= 1
      && var (s, answers) := OneAtATime(env, Calls(events)[..m], FirstInputs(js.inputs[..m]));
      && (forall i :: 0 <= i < m ==> js.settled[i] == (i, answers[i]))
      && (js.awaiting == map[] ==> js.shared == s)
      && (js.awaiting == map[] && js.jobs == [] ==> m == |Calls(events)|)
  {
    hide S.Sequential, S.Steps, OneAtATime, TaskOf;
    TasksAreCalls(env, events);
    S.Linearization(R.INITIAL, seq(|events|, i requires 0 <= i < |events| => ServerEvent(env, events[i])));
    var js := ServerRun(env, events);
    var m := |js.settled|;
    SequentialIsOneAtATime(env, Calls(events)[..m], js.tasks[..m], js.inputs[..m]);
  }

  /** One more event leaves the answers given, and what their awaits produced, and adds at most one answer. */
  lemma AnswersStay(env: Env, events: seq<AsyncEvent>)
    requires events != []
    ensures var (js, js') := (ServerRun(env, events[..|events| - 1]), ServerRun(env, events));
      var m := |js.settled|;
      && js.settled <= js'.settled && |js'.settled| <= m + 1
      && m <= |js.inputs| <= |js'.inputs| && js'.inputs[..m] == js.inputs[..m]
  {
    hide TaskOf, S.Step, S.Inv;
    var n := |events| - 1;
    var all := seq(|events|, i requires 0 <= i < |events| => ServerEvent(env, events[i]));
    assert all[..n] == seq(n, i requires 0 <= i < n => ServerEvent(env, events[..n][i]));
    S.RunKeepsInv(R.INITIAL, all[..n]);
    var sys := S.Steps(S.Initial(R.INITIAL), all[..n]);
    var phase :| S.Inv(sys, R.INITIAL, phase);
    S.StepKeepsAnswers(sys, R.INITIAL, phase, all[n]);
  }

  // ---- what clients of the server see -----------------------------------------------------------

  /** The requests among the calls, in order, with what their awaits produced. */
  function Handled(calls: seq<Call>, awaited: seq<Option<bytes>>): seq<R.Event>
    requires |calls| == |awaited|
  {
    if calls == [] then []
    else
      var n := |calls| - 1;
      Handled(calls[..n], awaited[..n]) + (if calls[n].Handle? then [R.Event(calls[n].req, awaited[n])] else [])
  }

  lemma {:induction false} StateIsOfRequests(env: Env, calls: seq<Call>, awaited: seq<Option<bytes>>)
    requires |calls| == |awaited|
    ensures OneAtATime(env, calls, awaited).0 == R.Run(env, R.INITIAL, Handled(calls, awaited)).0
  {
    hide Apply, ReportOf;
    if calls != [] {
      var n := |calls| - 1;
      StateIsOfRequests(env, calls[..n], awaited[..n]);
      var before := Handled(calls[..n], awaited[..n]);
      if calls[n].Handle? {
        assert Handled(calls, awaited)[..|before|] == before;
      } else {
        assert Handled(calls, awaited) == before;
      }
    }
  }

  lemma {:induction false} AnswerAt(env: Env, calls: seq<Call>, awaited: seq<Option<bytes>>, i: nat)
    requires i < |calls| == |awaited|
    ensures OneAtATime(env, calls, awaited).1[i]
         == RunCall(env, OneAtATime(env, calls[..i], awaited[..i]).0, calls[i], awaited[i]).1
    ensures OneAtATime(env, calls, awaited).1[..i] == OneAtATime(env, calls[..i], awaited[..i]).1
  {
    hide RunCall;
    var n := |calls| - 1;
    var all, before := OneAtATime(env, calls, awaited).1, OneAtATime(env, calls[..n], awaited[..n]).1;
    assert all[..n] == before;
    if i < n {
      AnswerAt(env, calls[..n], awaited[..n], i);
      assert calls[..n][..i] == calls[..i] && awaited[..n][..i] == awaited[..i];
      assert all[..i] == before[..i];
    }
  }

  /** The requests that reached the server before call i. */
  ghost function HandledBefore(env: Env, events: seq<AsyncEvent>, i: nat): seq<R.Event>
    requires i <= |Calls(events)| && i <= |ServerRun(env, events).inputs|
  {
    Handled(Calls(events)[..i], FirstInputs(ServerRun(env, events).inputs[..i]))
  }

  /** Call i was answered in the state that the requests before it leave, and so were the calls before it. */
  lemma SettledAnswer(env: Env, events: seq<AsyncEvent>, i: nat)
    requires i < |ServerRun(env, events).settled|
    ensures var js := ServerRun(env, events);
      && i < |Calls(events)| == |js.inputs|
      && js.settled[i].1 == RunCall(env, R.Run(env, R.INITIAL, HandledBefore(env, events, i)).0, Calls(events)[i],
                                    FirstInput(js.inputs[i])).1
      && AnswersOf(js.settled[..i]) == OneAtATime(env, Calls(events)[..i], FirstInputs(js.inputs[..i])).1
      && OneAtATime(env, Calls(events)[..i], FirstInputs(js.inputs[..i])).0
           == R.Run(env, R.INITIAL, HandledBefore(env, events, i)).0
  {
    hide ServerRun, OneAtATime, RunCall, R.Run;
    ServerRunsEnclaveSequentially(env, events);
    var js := ServerRun(env, events);
    var m := |js.settled|;
    var calls, awaited := Calls(events)[..m], FirstInputs(js.inputs[..m]);
    assert calls[..i] == Calls(events)[..i] && awaited[..i] == FirstInputs(js.inputs[..i]);
    AnswerAt(env, calls, awaited, i);
    StateIsOfRequests(env, calls[..i], awaited[..i]);
    assert AnswersOf(js.settled[..i]) == OneAtATime(env, calls, awaited).1[..i];
  }

  function AnswersOf(settled: seq<(nat, EnclaveProgress)>): seq<EnclaveProgress> {
    seq(|settled|, i requires 0 <= i < |settled| => settled[i].1)
  }

  /**
   For any interleaving, a signature that the server hands out keeps to the policy set by the requests that arrived
   before, and is made with the key derived from the seed they left.
   */
  lemma EveryServedSignatureIsSound(env: Env, events: seq<AsyncEvent>, i: nat, o: Outcome)
    requires i < |ServerRun(env, events).settled| && ServerRun(env, events).settled[i].1 == S.Return(Answered(o))
    requires o.Success? && o.reply.Signed?
    ensures i < |Calls(events)| == |ServerRun(env, events).inputs|
    ensures G.Sound(env, R.Run(env, R.INITIAL, HandledBefore(env, events, i)).0, o.reply)
    ensures R.Run(env, R.INITIAL, HandledBefore(env, events, i)).0.seed == R.SeedInForce(HandledBefore(env, events, i))
  {
    hide ServerRun, OneAtATime, R.Run, Apply, G.Sound, R.SeedInForce;
    SettledAnswer(env, events, i);
    R.SeedIsLastDelivered(env, HandledBefore(env, events, i));
    var call, input := Calls(events)[i], FirstInput(ServerRun(env, events).inputs[i]);
    assert call.Handle?;
    var before := HandledBefore(env, events, i);
    R.RunKeepsValid(env, before);
    G.SignedRequestIsSound(env, R.Run(env, R.INITIAL, before).0, R.Event(call.req, input));
  }

  /** What the answers so far add to a counter. */
  function Tally(answers: seq<EnclaveProgress>, c: Counter): nat {
    if answers == [] then 0
    else
      var last := answers[|answers| - 1];
      Tally(answers[..|answers| - 1], c)
      + (if last.Return? && last.result.Answered? then B.Gain(last.result.outcome, c) else 0)
  }

  lemma {:induction false} TalliesAdd(env: Env, calls: seq<Call>, awaited: seq<Option<bytes>>, c: Counter)
    requires |calls| == |awaited|
    ensures var (s, answers) := OneAtATime(env, calls, awaited); Total(s.users, c) == Tally(answers, c)
  {
    hide Apply, Total, ReportOf;
    if calls != [] {
      var n := |calls| - 1;
      TalliesAdd(env, calls[..n], awaited[..n], c);
      var (before, answers) := OneAtATime(env, calls[..n], awaited[..n]);
      var (after, all) := OneAtATime(env, calls, awaited);
      assert all[..n] == answers;
      if calls[n].Handle? {
        var e := R.Event(calls[n].req, awaited[n]);
        var o := Apply(env, before, e.req, e.awaited).1;
        B.ApplyCounted(env, before, e, c);
        B.TotalMoves(before.users, after.users, T.UserKey(env, e.req), o, c);
      }
    } else {
      NoUsersNoTotal(c);
    }
  }

  lemma NoUsersNoTotal(c: Counter)
    ensures Total(R.INITIAL.users, c) == 0
  {
  }

  /**
   For any interleaving, a state read reports exactly what the answers given before it add up to, whether a seed had
   been delivered by the requests before it, and how many users these left an entry for.
   */
  lemma EveryServedReportIsExact(env: Env, events: seq<AsyncEvent>, i: nat, r: StateReport)
    requires i < |ServerRun(env, events).settled| && ServerRun(env, events).settled[i].1 == S.Return(Reported(r))
    ensures var before := AnswersOf(ServerRun(env, events).settled[..i]);
      && r.actionsSigned == Tally(before, SignedActions)
      && r.actionsRefused == Tally(before, RefusedActions)
      && r.depositsConfirmed == Tally(before, ConfirmedDeposits)
    ensures i <= |Calls(events)| && i <= |ServerRun(env, events).inputs|
    ensures r.hasSeed == R.SeedInForce(HandledBefore(env, events, i)).Some?
    ensures r.users == |R.Run(env, R.INITIAL, HandledBefore(env, events, i)).0.users|
  {
    hide ServerRun, OneAtATime, R.Run, Apply, Total, Tally, R.SeedInForce;
    SettledAnswer(env, events, i);
    R.SeedIsLastDelivered(env, HandledBefore(env, events, i));
    assert Calls(events)[i].ReadState?;
    var calls, awaited := Calls(events)[..i], FirstInputs(ServerRun(env, events).inputs[..i]);
    TalliesAdd(env, calls, awaited, SignedActions);
    TalliesAdd(env, calls, awaited, RefusedActions);
    TalliesAdd(env, calls, awaited, ConfirmedDeposits);
  }
}
