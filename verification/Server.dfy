/**
 Model of the promise chain in extension/typescript/src/base/server.ts. serialize is modelled on the promises it
 creates, with their reactions and the microtask queue; handlers are state machines that may stop at an await.
 */
module Server {
  /** How far a handler got: stopped at an await, returned, or threw. */
  datatype Progress<+L, +R> = Yield(local: L) | Return(result: R) | Throw

  /** A function passed to serialize: its code up to the first await, and from one await to the next. */
  datatype Task<!S, !L, !V, !R> = Task(start: S -> (S, Progress<L, R>), resume: (S, L, V) -> (S, Progress<L, R>))

  datatype Callback = CallTask(i: nat) | ReturnUndefined

  /** A callback together with the promise that then() returned for it. */
  datatype Job = Job(callback: Callback, derived: nat)

  datatype Status = Pending | Fulfilled | Rejected

  datatype Promise = Promise(status: Status, reactions: seq<Job>)

  /**
   awaiting holds the suspended handlers with their run promises; started, settled and inputs record which
   handlers started, which settled with what, and what each handler's awaits produced.
   */
  datatype Runtime<!S, !L, !V, !R> = Runtime(
    shared: S,
    promises: seq<Promise>,
    jobs: seq<Job>,
    tasks: seq<Task<S, L, V, R>>,
    awaiting: map<nat, (L, nat)>,
    started: seq<nat>,
    settled: seq<(nat, Progress<L, R>)>,
    inputs: seq<seq<V>>)

  // ---- promises ---------------------------------------------------------------------

  /** p.then(callback, callback): both outcomes run the same callback. */
  function Then<S, L, V, R>(js: Runtime<S, L, V, R>, p: nat, callback: Callback): (Runtime<S, L, V, R>, nat)
    requires p < |js.promises|
  {
    var derived := |js.promises|;
    var job := Job(callback, derived);
    var js' := if js.promises[p].status.Pending? then
                 js.(promises := js.promises[p := js.promises[p].(reactions := js.promises[p].reactions + [job])])
               else js.(jobs := js.jobs + [job]);
    (js'.(promises := js'.promises + [Promise(Pending, [])]), derived)
  }

  function Settle<S, L, V, R>(js: Runtime<S, L, V, R>, p: nat, status: Status): Runtime<S, L, V, R>
    requires p < |js.promises|
  {
    js.(promises := js.promises[p := Promise(status, [])], jobs := js.jobs + js.promises[p].reactions)
  }

  /** serialize(fn): the run promise and the tail promise it hangs on the queue. */
  function Enqueue<S, L, V, R>(js: Runtime<S, L, V, R>, queue: nat, fn: Task<S, L, V, R>): (Runtime<S, L, V, R>, nat)
    requires queue < |js.promises|
  {
    var js0 := js.(tasks := js.tasks + [fn], inputs := js.inputs + [[]]);
    var (js1, run) := Then(js0, queue, CallTask(|js.tasks|));
    Then(js1, run, ReturnUndefined)
  }

  // ---- the runtime ---------------------------------------------------------------------

  /** Task i ran a piece of its code, with run promise p. */
  function Advance<S, L, V, R>(js: Runtime<S, L, V, R>, i: nat, p: nat, after: (S, Progress<L, R>)): Runtime<S, L, V, R>
    requires p < |js.promises|
  {
    var js' := js.(shared := after.0);
    match after.1
    case Yield(local) => js'.(awaiting := js'.awaiting[i := (local, p)])
    case Return(_) => Settle(js'.(settled := js'.settled + [(i, after.1)]), p, Fulfilled)
    case Throw => Settle(js'.(settled := js'.settled + [(i, after.1)]), p, Rejected)
  }

  /** The oldest microtask runs. */
  function Tick<S, L, V, R>(js: Runtime<S, L, V, R>): Runtime<S, L, V, R> {
    if js.jobs == [] || js.jobs[0].derived >= |js.promises| then js
    else
      var job := js.jobs[0];
      var rest := js.(jobs := js.jobs[1..]);
      match job.callback
      case ReturnUndefined => Settle(rest, job.derived, Fulfilled)
      case CallTask(i) =>
        if i >= |js.tasks| then js
        else Advance(rest.(started := js.started + [i]), i, job.derived, js.tasks[i].start(js.shared))
  }

  /** The await of handler i produces v. */
  function Wake<S, L, V, R>(js: Runtime<S, L, V, R>, i: nat, v: V): Runtime<S, L, V, R> {
    if i !in js.awaiting || i >= |js.tasks| || i >= |js.inputs| || js.awaiting[i].1 >= |js.promises| then js
    else
      var (local, p) := js.awaiting[i];
      Advance(js.(awaiting := js.awaiting - {i}, inputs := js.inputs[i := js.inputs[i] + [v]]),
              i, p, js.tasks[i].resume(js.shared, local, v))
  }

  datatype Event<!S, !L, !V, !R> = Arrive(fn: Task<S, L, V, R>) | RunMicrotask | Resolve(i: nat, v: V)

  /** The runtime and the queue field. */
  datatype System<!S, !L, !V, !R> = System(js: Runtime<S, L, V, R>, queue: nat)

  /** queue is Promise.resolve(). */
  function Initial<S, L, V, R>(s: S): System<S, L, V, R> {
    System(Runtime(s, [Promise(Fulfilled, [])], [], [], map[], [], [], []), 0)
  }

  function Step<S, L, V, R>(sys: System<S, L, V, R>, e: Event<S, L, V, R>): System<S, L, V, R> {
    match e
    case Arrive(fn) =>
      if sys.queue >= |sys.js.promises| then sys
      else
        var (js, queue) := Enqueue(sys.js, sys.queue, fn);
        System(js, queue)
    case RunMicrotask => sys.(js := Tick(sys.js))
    case Resolve(i, v) => sys.(js := Wake(sys.js, i, v))
  }

  function Steps<S, L, V, R>(sys: System<S, L, V, R>, events: seq<Event<S, L, V, R>>): System<S, L, V, R> {
    if events == [] then sys else Step(Steps(sys, events[..|events| - 1]), events[|events| - 1])
  }

  class Server<S, L, V, R> {
    var js: Runtime<S, L, V, R>
    var queue: nat

    constructor (s: S)
      ensures System(js, queue) == Initial(s)
    {
      js := Runtime(s, [Promise(Fulfilled, [])], [], [], map[], [], [], []);
      queue := 0;
    }

    method Serialize(fn: Task<S, L, V, R>) returns (run: nat)
      requires queue < |js.promises|
      modifies this
      ensures System(js, queue) == Step(System(old(js), old(queue)), Arrive(fn))
      ensures run == |old(js).promises| && queue == run + 1 && queue < |js.promises|
    {
      var i := |js.tasks|;
      js := js.(tasks := js.tasks + [fn], inputs := js.inputs + [[]]);
      var (js1, p) := Then(js, queue, CallTask(i));
      run := p;
      var (js2, tail) := Then(js1, run, ReturnUndefined);
      js := js2;
      queue := tail;
    }
  }

  // ---- the reference: one task at a time ---------------------------------------------------

  /** One task alone, fed what its awaits produced. */
  function Drive<S, L, V, R>(t: Task<S, L, V, R>, s: S, inputs: seq<V>): (S, Progress<L, R>) {
    if inputs == [] then t.start(s)
    else
      var n := |inputs| - 1;
      var (s', p) := Drive(t, s, inputs[..n]);
      if p.Yield? then t.resume(s', p.local, inputs[n]) else (s', p)
  }

  /** The tasks one after the other, each run to its end before the next starts. */
  function Sequential<S, L, V, R>(tasks: seq<Task<S, L, V, R>>, inputs: seq<seq<V>>,
                                  s: S): (r: (S, seq<Progress<L, R>>))
    requires |tasks| == |inputs|
    ensures |r.1| == |tasks|
  {
    if tasks == [] then (s, [])
    else
      var n := |tasks| - 1;
      var (before, answers) := Sequential(tasks[..n], inputs[..n], s);
      var (after, answer) := Drive(tasks[n], before, inputs[n]);
      (after, answers + [answer])
  }

  // ---- the invariant --------------------------------------------------------------------------

  /** Run promise of task i and the tail behind it; the tail of no tasks is promise 0. */
  function RunOf(i: nat): nat {
    2 * i + 1
  }

  function TailAfter(i: nat): nat {
    2 * i
  }

  /** The chain, with m tasks settled and q tails settled. */
  ghost predicate Chained<S, L, V, R>(sys: System<S, L, V, R>, m: nat, q: nat) {
    var js := sys.js;
    var n := |js.tasks|;
    && q <= m <= n && |js.promises| == 2 * n + 1 && sys.queue == TailAfter(n) && |js.inputs| == n
    && (forall i :: 0 <= i < m ==> !js.promises[RunOf(i)].status.Pending? && js.promises[RunOf(i)].reactions == [])
    && (forall i :: m <= i < n ==> js.promises[RunOf(i)] == Promise(Pending, [Job(ReturnUndefined, TailAfter(i + 1))]))
    && (forall i :: 0 <= i <= q ==> js.promises[TailAfter(i)] == Promise(Fulfilled, []))
    && (forall i :: q < i < n ==> js.promises[TailAfter(i)] == Promise(Pending, [Job(CallTask(i), RunOf(i))]))
    && (q < n ==> js.promises[TailAfter(n)] == Promise(Pending, []))
  }

  /** Where the chain is: a tail is due to settle, a start is due, a handler is suspended, or nothing is queued. */
  datatype Phase = TailDue | StartDue | Suspended | Idle

  ghost predicate InPhase<S, L, V, R>(sys: System<S, L, V, R>, m: nat, phase: Phase) {
    var js := sys.js;
    match phase
    case TailDue => m > 0 && Chained(sys, m, m - 1)
                    && js.jobs == [Job(ReturnUndefined, TailAfter(m))] && js.awaiting == map[]
    case StartDue => Chained(sys, m, m) && m < |js.tasks|
                     && js.jobs == [Job(CallTask(m), RunOf(m))] && js.awaiting == map[]
    case Suspended => Chained(sys, m, m) && m < |js.tasks| && js.jobs == []
                      && m in js.awaiting && js.awaiting == map[m := js.awaiting[m]] && js.awaiting[m].1 == RunOf(m)
    case Idle => Chained(sys, m, m) && m == |js.tasks| && js.jobs == [] && js.awaiting == map[]
  }

  function UpTo(n: nat): (s: seq<nat>)
    ensures |s| == n
  {
    seq(n, i => i)
  }

  /** State, answers and start order are those of running the settled tasks one at a time. */
  ghost predicate Linear<S, L, V, R>(js: Runtime<S, L, V, R>, s0: S, suspended: bool)
    requires |js.settled| <= |js.tasks| == |js.inputs|
    requires suspended ==> |js.settled| < |js.tasks| && |js.settled| in js.awaiting
  {
    var m := |js.settled|;
    var (s, answers) := Sequential(js.tasks[..m], js.inputs[..m], s0);
    && (forall i :: 0 <= i < m ==> js.settled[i] == (i, answers[i]) && !answers[i].Yield?)
    && (if suspended then
          js.started == UpTo(m + 1) && Drive(js.tasks[m], s, js.inputs[m]) == (js.shared, Yield(js.awaiting[m].0))
        else js.started == UpTo(m) && s == js.shared && (m < |js.tasks| ==> js.inputs[m] == []))
    && (forall i :: m < i < |js.tasks| ==> js.inputs[i] == [])
  }

  ghost predicate Inv<S, L, V, R>(sys: System<S, L, V, R>, s0: S, phase: Phase) {
    InPhase(sys, |sys.js.settled|, phase) && Linear(sys.js, s0, phase == Suspended)
  }

  // ---- every step keeps it ------------------------------------------------------------------------

  /** The two promises that serialize adds, and the reaction it hangs on the queue. */
  lemma EnqueuedPromises<S, L, V, R>(sys: System<S, L, V, R>, m: nat, q: nat, fn: Task<S, L, V, R>)
    requires Chained(sys, m, q)
    ensures var (js', queue') := Enqueue(sys.js, sys.queue, fn);
      var n, before, after := |sys.js.tasks|, sys.js.promises, js'.promises;
      && queue' == TailAfter(n + 1) && |after| == 2 * n + 3
      && js'.tasks == sys.js.tasks + [fn] && js'.inputs == sys.js.inputs + [[]] && js'.awaiting == sys.js.awaiting
      && (forall i :: 0 <= i < |before| && i != TailAfter(n) ==> after[i] == before[i])
      && after[RunOf(n)] == Promise(Pending, [Job(ReturnUndefined, TailAfter(n + 1))])
      && after[TailAfter(n + 1)] == Promise(Pending, [])
      && (if q < n then after[TailAfter(n)] == Promise(Pending, [Job(CallTask(n), RunOf(n))]) && js'.jobs == sys.js.jobs
          else after[TailAfter(n)] == before[TailAfter(n)] && js'.jobs == sys.js.jobs + [Job(CallTask(n), RunOf(n))])
  {
  }

  lemma EnqueueExtendsChain<S, L, V, R>(sys: System<S, L, V, R>, m: nat, q: nat, fn: Task<S, L, V, R>)
    requires Chained(sys, m, q)
    ensures var (js', queue') := Enqueue(sys.js, sys.queue, fn);
      var n := |sys.js.tasks|;
      && Chained(System(js', queue'), m, q)
      && js'.jobs == sys.js.jobs + (if q == n then [Job(CallTask(n), RunOf(n))] else [])
      && js'.awaiting == sys.js.awaiting
  {
    EnqueuedPromises(sys, m, q, fn);
    hide Enqueue;
  }

  lemma ArriveKeepsChain<S, L, V, R>(sys: System<S, L, V, R>, m: nat, phase: Phase, fn: Task<S, L, V, R>)
    requires InPhase(sys, m, phase)
    ensures InPhase(Step(sys, Arrive(fn)), m, if phase == Idle then StartDue else phase)
  {
    EnqueueExtendsChain(sys, m, if phase == TailDue then m - 1 else m, fn);
    assert Enqueue(sys.js, sys.queue, fn).0.tasks == sys.js.tasks + [fn];
    hide Enqueue, Chained;
  }

  /** One more task behind the others is not seen by what Linear compares. */
  lemma ArriveKeepsLinear<S, L, V, R>(js: Runtime<S, L, V, R>, js': Runtime<S, L, V, R>, fn: Task<S, L, V, R>,
                                      s0: S, suspended: bool)
    requires |js.settled| <= |js.tasks| == |js.inputs|
    requires suspended ==> |js.settled| < |js.tasks| && |js.settled| in js.awaiting
    requires Linear(js, s0, suspended)
    requires js'.tasks == js.tasks + [fn] && js'.inputs == js.inputs + [[]] && js'.awaiting == js.awaiting
    requires js'.settled == js.settled && js'.started == js.started && js'.shared == js.shared
    ensures Linear(js', s0, suspended)
  {
    hide Sequential, Drive;
    var m := |js.settled|;
    assert js'.tasks[..m] == js.tasks[..m] && js'.inputs[..m] == js.inputs[..m];
  }

  lemma ArriveKeepsInv<S, L, V, R>(sys: System<S, L, V, R>, s0: S, phase: Phase, fn: Task<S, L, V, R>)
    requires Inv(sys, s0, phase)
    ensures Inv(Step(sys, Arrive(fn)), s0, if phase == Idle then StartDue else phase)
  {
    ArriveKeepsChain(sys, |sys.js.settled|, phase, fn);
    ArriveKeepsLinear(sys.js, Step(sys, Arrive(fn)).js, fn, s0, phase == Suspended);
    hide Linear, Chained;
  }

  lemma TailSettles<S, L, V, R>(sys: System<S, L, V, R>, s0: S)
    requires Inv(sys, s0, TailDue)
    ensures Inv(Step(sys, RunMicrotask), s0, if |sys.js.settled| < |sys.js.tasks| then StartDue else Idle)
    ensures Step(sys, RunMicrotask).js.settled == sys.js.settled
  {
    hide Sequential, Drive;
    var js' := Step(sys, RunMicrotask).js;
    assert forall i :: 0 <= i < |sys.js.promises| && i != TailAfter(|sys.js.settled|) ==>
      js'.promises[i] == sys.js.promises[i];
  }

  lemma SettleKeepsChain<S, L, V, R>(sys: System<S, L, V, R>, m: nat, status: Status)
    requires Chained(sys, m, m) && m < |sys.js.tasks| && sys.js.jobs == [] && sys.js.awaiting == map[]
    requires status != Pending
    ensures InPhase(sys.(js := Settle(sys.js, RunOf(m), status)), m + 1, TailDue)
  {
    var js' := Settle(sys.js, RunOf(m), status);
    assert forall i :: 0 <= i < |js'.promises| && i != RunOf(m) ==> js'.promises[i] == sys.js.promises[i];
  }

  /** Task m is running, and the next piece of its code ends in after. */
  ghost predicate Running<S, L, V, R>(sys: System<S, L, V, R>, s0: S, after: (S, Progress<L, R>)) {
    var js, m := sys.js, |sys.js.settled|;
    && Chained(sys, m, m) && m < |js.tasks| && js.jobs == [] && js.awaiting == map[] && js.started == UpTo(m + 1)
    && var (s, answers) := Sequential(js.tasks[..m], js.inputs[..m], s0);
    && (forall i :: 0 <= i < m ==> js.settled[i] == (i, answers[i]) && !answers[i].Yield?)
    && (forall i :: m < i < |js.tasks| ==> js.inputs[i] == [])
    && Drive(js.tasks[m], s, js.inputs[m]) == after
  }

  /** Settling the run promise is not seen by what Linear compares. */
  lemma SettleKeepsLinear<S, L, V, R>(js: Runtime<S, L, V, R>, p: nat, status: Status, s0: S)
    requires p < |js.promises| && |js.settled| <= |js.tasks| == |js.inputs| && Linear(js, s0, false)
    ensures var js' := Settle(js, p, status);
      |js'.settled| == |js.settled| && |js'.tasks| == |js.tasks| == |js'.inputs| && Linear(js', s0, false)
  {
    hide Sequential, Drive;
  }

  lemma SettledIsLinear<S, L, V, R>(sys: System<S, L, V, R>, s0: S, after: (S, Progress<L, R>))
    requires Running(sys, s0, after) && !after.1.Yield?
    ensures var done := sys.js.(shared := after.0, settled := sys.js.settled + [(|sys.js.settled|, after.1)]);
      |done.settled| <= |done.tasks| == |done.inputs| && Linear(done, s0, false)
  {
    hide Sequential, Drive;
    var js, m := sys.js, |sys.js.settled|;
    assert m < |js.tasks| == |js.inputs|;
    hide Chained;
    SequentialExtends(js.tasks, js.inputs, s0, m);
    var (before, answers) := Sequential(js.tasks[..m], js.inputs[..m], s0);
    assert Sequential(js.tasks[..m + 1], js.inputs[..m + 1], s0) == (after.0, answers + [after.1]);
  }

  /** Task m ran a piece of its code and is suspended again or settled. */
  lemma AdvanceKeepsInv<S, L, V, R>(sys: System<S, L, V, R>, s0: S, after: (S, Progress<L, R>))
    requires Running(sys, s0, after)
    ensures var sys' := sys.(js := Advance(sys.js, |sys.js.settled|, RunOf(|sys.js.settled|), after));
      Inv(sys', s0, if after.1.Yield? then Suspended else TailDue)
  {
    hide Drive, Sequential;
    var js, m := sys.js, |sys.js.settled|;
    if !after.1.Yield? {
      SettledIsLinear(sys, s0, after);
      var done := js.(shared := after.0, settled := js.settled + [(m, after.1)]);
      var status := if after.1.Return? then Fulfilled else Rejected;
      assert Chained(sys.(js := done), m, m);
      SettleKeepsChain(sys.(js := done), m, status);
      SettleKeepsLinear(done, RunOf(m), status, s0);
      hide Linear, InPhase, Chained;
    }
  }

  lemma SequentialExtends<S, L, V, R>(tasks: seq<Task<S, L, V, R>>, inputs: seq<seq<V>>, s: S, m: nat)
    requires m < |tasks| == |inputs|
    ensures var (before, answers) := Sequential(tasks[..m], inputs[..m], s);
      var (after, answer) := Drive(tasks[m], before, inputs[m]);
      Sequential(tasks[..m + 1], inputs[..m + 1], s) == (after, answers + [answer])
  {
    hide Drive;
    assert tasks[..m + 1][..m] == tasks[..m] && inputs[..m + 1][..m] == inputs[..m];
  }

  lemma StartedIsRunning<S, L, V, R>(sys: System<S, L, V, R>, s0: S)
    requires Inv(sys, s0, StartDue)
    ensures var js, m := sys.js, |sys.js.settled|;
      && m < |js.tasks| && RunOf(m) < |js.promises| && js.jobs == [Job(CallTask(m), RunOf(m))] && js.started == UpTo(m)
      && Running(sys.(js := js.(jobs := [], started := js.started + [m])), s0, js.tasks[m].start(js.shared))
  {
    hide Sequential;
    var m := |sys.js.settled|;
    assert sys.js.started + [m] == UpTo(m + 1);
  }

  lemma StartKeepsInv<S, L, V, R>(sys: System<S, L, V, R>, s0: S)
    requires Inv(sys, s0, StartDue)
    ensures var sys' := Step(sys, RunMicrotask);
      (Inv(sys', s0, Suspended) || Inv(sys', s0, TailDue)) && |sys'.js.started| == |sys.js.settled| + 1
  {
    hide Inv, Running, Chained, Linear;
    StartedIsRunning(sys, s0);
    var js, m := sys.js, |sys.js.settled|;
    assert js.jobs[1..] == [];
    AdvanceKeepsInv(sys.(js := js.(jobs := [], started := js.started + [m])), s0, js.tasks[m].start(js.shared));
  }

  /** The awaiting task m, fed v and taken off the map of suspended handlers. */
  function Fed<S, L, V, R>(js: Runtime<S, L, V, R>, m: nat, v: V): Runtime<S, L, V, R>
    requires m < |js.inputs|
  {
    js.(awaiting := js.awaiting - {m}, inputs := js.inputs[m := js.inputs[m] + [v]])
  }

  lemma FedIsRunning<S, L, V, R>(sys: System<S, L, V, R>, s0: S, v: V)
    requires Inv(sys, s0, Suspended)
    ensures var js, m := sys.js, |sys.js.settled|;
      && Chained(sys, m, m)
      && Running(sys.(js := Fed(js, m, v)), s0, js.tasks[m].resume(js.shared, js.awaiting[m].0, v))
  {
    hide Sequential;
    var js, m := sys.js, |sys.js.settled|;
    assert Fed(js, m, v).awaiting == map[];
    assert Fed(js, m, v).inputs[..m] == js.inputs[..m];
    assert Fed(js, m, v).inputs[m][..|js.inputs[m]|] == js.inputs[m];
  }

  lemma WakeKeepsInv<S, L, V, R>(sys: System<S, L, V, R>, s0: S, v: V)
    requires Inv(sys, s0, Suspended)
    ensures var sys' := Step(sys, Resolve(|sys.js.settled|, v)); Inv(sys', s0, Suspended) || Inv(sys', s0, TailDue)
  {
    var js, m := sys.js, |sys.js.settled|;
    FedIsRunning(sys, s0, v);
    assert m in js.awaiting && js.awaiting[m].1 == RunOf(m) < |js.promises| && m < |js.tasks| == |js.inputs|;
    hide Inv, Running, Chained;
    var after := js.tasks[m].resume(js.shared, js.awaiting[m].0, v);
    AdvanceKeepsInv(sys.(js := Fed(js, m, v)), s0, after);
  }

  /** Any arrival, microtask or resolved await, in any order, keeps the chain linear. */
  lemma StepKeepsInv<S, L, V, R>(sys: System<S, L, V, R>, s0: S, phase: Phase, e: Event<S, L, V, R>)
    ensures Inv(sys, s0, phase) ==> exists next :: Inv(Step(sys, e), s0, next)
  {
    if Inv(sys, s0, phase) {
      match e {
        case Arrive(fn) => ArriveKeepsInv(sys, s0, phase, fn);
        case RunMicrotask =>
          if phase == TailDue {
            TailSettles(sys, s0);
          } else if phase == StartDue {
            StartKeepsInv(sys, s0);
          } else {
            assert Step(sys, e) == sys;
          }
        case Resolve(i, v) =>
          if phase == Suspended && i == |sys.js.settled| {
            WakeKeepsInv(sys, s0, v);
          } else {
            assert Step(sys, e) == sys;
          }
      }
      hide Inv, Step;
    }
  }

  lemma InitialInv<S, L, V, R>(s: S)
    ensures Inv<S, L, V, R>(Initial(s), s, Idle)
  {
  }

  lemma {:induction false} RunKeepsInv<S, L, V, R>(s0: S, events: seq<Event<S, L, V, R>>)
    ensures exists phase :: Inv(Steps(Initial(s0), events), s0, phase)
  {
    hide Inv, Step;
    if events == [] {
      InitialInv<S, L, V, R>(s0);
      assert Inv(Steps(Initial(s0), events), s0, Idle);
    } else {
      var n := |events| - 1;
      RunKeepsInv(s0, events[..n]);
      var phase :| Inv(Steps(Initial(s0), events[..n]), s0, phase);
      StepKeepsInv(Steps(Initial(s0), events[..n]), s0, phase, events[n]);
      var next :| Inv(Step(Steps(Initial(s0), events[..n]), events[n]), s0, next);
      assert Steps(Initial(s0), events) == Step(Steps(Initial(s0), events[..n]), events[n]);
    }
  }

  // ---- what it means --------------------------------------------------------------------------------

  /**
   Handlers never overlap and start in the order in which they were enqueued. Every answer, rejections included, and
   the shared state between handlers are those of a sequential run of the tasks; when nothing is pending, of all.
   */
  lemma Linearization<S, L, V, R>(s0: S, events: seq<Event<S, L, V, R>>)
    ensures var js := Steps(Initial(s0), events).js;
      var m := |js.settled|;
      && |js.awaiting| <= 1
      && m <= |js.tasks| == |js.inputs|
      && js.started == UpTo(m + |js.awaiting|)
      && var (s, answers) := Sequential(js.tasks[..m], js.inputs[..m], s0);
      && (forall i :: 0 <= i < m ==> js.settled[i] == (i, answers[i]) && !answers[i].Yield?)
      && (js.awaiting == map[] ==> js.shared == s)
      && (js.awaiting == map[] && js.jobs == [] ==> m == |js.tasks|)
  {
    hide Sequential, Drive, Steps;
    RunKeepsInv(s0, events);
    var sys := Steps(Initial(s0), events);
    var phase :| Inv(sys, s0, phase);
    var m := |sys.js.settled|;
    if phase == Suspended {
      assert |map[m := sys.js.awaiting[m]]| == 1;
    }
  }

  /** An answer is final, with what its awaits produced, and a step gives at most one. */
  lemma StepKeepsAnswers<S, L, V, R>(sys: System<S, L, V, R>, s0: S, phase: Phase, e: Event<S, L, V, R>)
    requires Inv(sys, s0, phase)
    ensures var (js, js') := (sys.js, Step(sys, e).js);
      var m := |js.settled|;
      && js.settled <= js'.settled && |js'.settled| <= m + 1
      && m <= |js.inputs| <= |js'.inputs| && js'.inputs[..m] == js.inputs[..m]
  {
    hide Sequential, Drive;
    if phase == Suspended && e.Resolve? && e.i == |sys.js.settled| {
      hide Linear, Chained;
    }
  }

  /** A settled handler's run promise is rejected if it threw, and fulfilled if it returned. */
  ghost predicate PromisesTell<S, L, V, R>(js: Runtime<S, L, V, R>) {
    forall i :: 0 <= i < |js.settled| ==>
      RunOf(i) < |js.promises|
      && js.promises[RunOf(i)].status == if js.settled[i].1.Throw? then Rejected else Fulfilled
  }

  lemma ArriveKeepsPromises<S, L, V, R>(sys: System<S, L, V, R>, s0: S, phase: Phase, fn: Task<S, L, V, R>)
    requires Inv(sys, s0, phase) && PromisesTell(sys.js)
    ensures PromisesTell(Step(sys, Arrive(fn)).js)
  {
    EnqueuedPromises(sys, |sys.js.settled|, if phase == TailDue then |sys.js.settled| - 1 else |sys.js.settled|, fn);
    assert Step(sys, Arrive(fn)).js.settled == sys.js.settled;
    hide Enqueue, Linear, Chained;
  }

  /** A piece of code that runs settles its own promise at most. */
  lemma AdvanceKeepsPromises<S, L, V, R>(js: Runtime<S, L, V, R>, after: (S, Progress<L, R>))
    requires PromisesTell(js) && RunOf(|js.settled|) < |js.promises|
    ensures PromisesTell(Advance(js, |js.settled|, RunOf(|js.settled|), after))
  {
  }

  lemma StepKeepsPromises<S, L, V, R>(sys: System<S, L, V, R>, s0: S, phase: Phase, e: Event<S, L, V, R>)
    requires Inv(sys, s0, phase) && PromisesTell(sys.js)
    ensures PromisesTell(Step(sys, e).js)
  {
    hide Sequential, Drive, Linear;
    var js, m := sys.js, |sys.js.settled|;
    match e {
      case Arrive(fn) => ArriveKeepsPromises(sys, s0, phase, fn);
      case RunMicrotask =>
        if phase == StartDue {
          var started := js.(jobs := js.jobs[1..], started := js.started + [m]);
          AdvanceKeepsPromises(started, js.tasks[m].start(js.shared));
          hide Advance;
        }
      case Resolve(i, v) =>
        if phase == Suspended && i == m {
          AdvanceKeepsPromises(Fed(js, m, v), js.tasks[m].resume(js.shared, js.awaiting[m].0, v));
          hide Advance;
        } else {
          assert Step(sys, e) == sys;
        }
    }
  }

  /** For any interleaving, the promise that serialize returned rejects exactly if its handler threw. */
  lemma {:induction false} RejectedExactlyIfThrown<S, L, V, R>(s0: S, events: seq<Event<S, L, V, R>>)
    ensures PromisesTell(Steps(Initial(s0), events).js)
  {
    hide Step, Inv;
    if events != [] {
      var n := |events| - 1;
      RejectedExactlyIfThrown(s0, events[..n]);
      RunKeepsInv(s0, events[..n]);
      var phase :| Inv(Steps(Initial(s0), events[..n]), s0, phase);
      StepKeepsPromises(Steps(Initial(s0), events[..n]), s0, phase, events[n]);
    }
  }

  // ---- a queued handler starts ------------------------------------------------------------------------

  lemma {:induction false} StepsFrom<S, L, V, R>(sys: System<S, L, V, R>, events: seq<Event<S, L, V, R>>)
    requires events != []
    ensures Steps(sys, events) == Steps(Step(sys, events[0]), events[1..])
  {
    hide Step;
    var n := |events| - 1;
    if n > 0 {
      StepsFrom(sys, events[..n]);
      assert events[..n][1..] == events[1..][..n - 1];
    }
  }

  lemma {:induction false} StartedGrows<S, L, V, R>(sys: System<S, L, V, R>, events: seq<Event<S, L, V, R>>)
    ensures |sys.js.started| <= |Steps(sys, events).js.started|
  {
    if events != [] {
      StartedGrows(sys, events[..|events| - 1]);
    }
  }

  function Microtasks<S, L, V, R>(events: seq<Event<S, L, V, R>>): nat {
    if events == [] then 0 else (if events[0].RunMicrotask? then 1 else 0) + Microtasks(events[1..])
  }

  lemma {:induction false} StartsWithin<S, L, V, R>(sys: System<S, L, V, R>, s0: S, phase: Phase,
                                                    more: seq<Event<S, L, V, R>>)
    requires Inv(sys, s0, phase) && phase in {TailDue, StartDue} && |sys.js.settled| < |sys.js.tasks|
    requires Microtasks(more) >= if phase == TailDue then 2 else 1
    ensures |Steps(sys, more).js.started| > |sys.js.settled|
    decreases |more|
  {
    StepsFrom(sys, more);
    var next, rest := Step(sys, more[0]), more[1..];
    match more[0] {
      case Arrive(fn) =>
        ArriveKeepsInv(sys, s0, phase, fn);
        StartsWithin(next, s0, phase, rest);
      case Resolve(i, v) =>
        assert next == sys;
        StartsWithin(sys, s0, phase, rest);
      case RunMicrotask =>
        if phase == TailDue {
          TailSettles(sys, s0);
          StartsWithin(next, s0, StartDue, rest);
        } else {
          StartKeepsInv(sys, s0);
          StartedGrows(next, rest);
        }
    }
    hide Inv, Step, Steps;
  }

  /**
   Whatever the earlier handlers did, once they settled the next queued one has started when two more microtasks have
   run, whatever arrives and whatever awaits are reported in between.
   */
  lemma NextTaskStarts<S, L, V, R>(s0: S, events: seq<Event<S, L, V, R>>, more: seq<Event<S, L, V, R>>)
    requires var js := Steps(Initial(s0), events).js; js.awaiting == map[] && |js.settled| < |js.tasks|
    requires Microtasks(more) >= 2
    ensures var sys := Steps(Initial(s0), events); |Steps(sys, more).js.started| > |sys.js.settled|
  {
    RunKeepsInv(s0, events);
    var sys := Steps(Initial(s0), events);
    var phase :| Inv(sys, s0, phase);
    hide Steps;
    assert phase in {TailDue, StartDue};
    StartsWithin(sys, s0, phase, more);
    hide Step, Inv;
  }
}
