// Action and deployment requests racing for the fleet-wide lock of
// internal/hub: every step of every request is one step of the machine.
module FleetLock {
  import opened Text
  import opened Audit
  import Table = Audit

  // How far a request has come. An action stays in its handler; a deployment
  // is handed over to a background finalizer after Started.
  datatype Stage = Arrived | Locked | Created | Started | Posting | Answered | Closed

  // `handlerHolds` is the pending deferred unlock of the handler, `workerHolds`
  // the one of the background finalizer. `locks` and `unlocks` count this
  // request's operations on the mutex.
  datatype Request = Request(
    deployment: bool,
    op: string,
    stage: Stage,
    handlerHolds: bool,
    workerHolds: bool,
    handedOver: bool,
    locks: nat,
    unlocks: nat)

  datatype Hub = Hub(locked: bool, requests: map<nat, Request>, rows: Rows, posts: map<string, nat>)

  // `durable` tells whether a write took effect and `told` whether the handler
  // learned of it: after any storage error the handler gives up, and the row
  // may have been written all the same.
  datatype Step =
    | Arrive(r: nat, deployment: bool)
    | TryLock(r: nat)
    | Create(r: nat, op: Operation, durable: bool, told: bool)
    | Start(r: nat, at: int, durable: bool, told: bool)
    | HandOver(r: nat)
    | Post(r: nat)
    | Receive(r: nat)
    | FinishRow(r: nat, f: Finish, durable: bool)
    | HandlerReturns(r: nat)
    | WorkerReturns(r: nat)
    | Restart(at: int)

  const START := Hub(false, map[], map[], map[])

  function Posts(posts: map<string, nat>, op: string): nat {
    if op in posts then posts[op] else 0
  }

  // The request may run its next handler (or finalizer) statement.
  predicate At(s: Hub, r: nat, stage: Stage) {
    r in s.requests && s.requests[r].stage == stage
  }

  // The POST is sent by the goroutine that owns the lock at that point.
  predicate MayPost(s: Hub, r: nat) {
    At(s, r, Started) && (s.requests[r].deployment ==> s.requests[r].handedOver)
  }

  predicate Enabled(s: Hub, step: Step) {
    match step
    case Arrive(r, deployment) => r !in s.requests
    case TryLock(r) => At(s, r, Arrived)
    case Create(r, op, durable, told) => At(s, r, Locked)
    case Start(r, at, durable, told) => At(s, r, Created)
    case HandOver(r) => At(s, r, Started) && s.requests[r].deployment && !s.requests[r].handedOver
    case Post(r) => MayPost(s, r)
    case Receive(r) => At(s, r, Posting)
    case FinishRow(r, f, durable) => At(s, r, Answered)
    case HandlerReturns(r) => r in s.requests && s.requests[r].handlerHolds && At(s, r, Closed)
    case WorkerReturns(r) => r in s.requests && s.requests[r].workerHolds && At(s, r, Closed)
    case Restart(at) => true
  }

  function Move(s: Hub, r: nat, to: Request): Hub {
    s.(requests := s.requests[r := to])
  }

  function Unlock(s: Hub, r: nat, to: Request): Hub {
    Move(s, r, to.(unlocks := to.unlocks + 1)).(locked := false)
  }

  function Next(s: Hub, step: Step): Hub
    requires Enabled(s, step)
  {
    match step
    case Arrive(r, deployment) => Move(s, r, Request(deployment, "", Arrived, false, false, false, 0, 0))
    case TryLock(r) =>
      var q := s.requests[r];
      if s.locked then Move(s, r, q.(stage := Closed))
      else Move(s, r, q.(stage := Locked, handlerHolds := true, locks := q.locks + 1)).(locked := true)
    case Create(r, op, durable, told) =>
      var q := s.requests[r];
      var outcome := CreateOutcome(s.rows, op);
      if !durable || !outcome.Written? then Move(s, r, q.(stage := Closed))
      else Move(s, r, q.(stage := if told then Created else Closed, op := op.id)).(rows := After(s.rows, outcome))
    case Start(r, at, durable, told) =>
      var q := s.requests[r];
      var outcome := StartOutcome(s.rows, q.op, at);
      if !durable || !outcome.Written? then Move(s, r, q.(stage := Closed))
      else Move(s, r, q.(stage := if told then Started else Closed)).(rows := After(s.rows, outcome))
    case HandOver(r) =>
      var q := s.requests[r];
      Move(s, r, q.(handedOver := true, handlerHolds := false, workerHolds := true))
    case Post(r) =>
      var q := s.requests[r];
      Move(s, r, q.(stage := Posting)).(posts := s.posts[q.op := Posts(s.posts, q.op) + 1])
    case Receive(r) => Move(s, r, s.requests[r].(stage := Answered))
    case FinishRow(r, f, durable) =>
      var q := s.requests[r];
      var outcome := FinishOutcome(s.rows, q.op, f);
      var s' := Move(s, r, q.(stage := Closed));
      if durable then s'.(rows := After(s.rows, outcome)) else s'
    case HandlerReturns(r) => Unlock(s, r, s.requests[r].(handlerHolds := false))
    case WorkerReturns(r) => Unlock(s, r, s.requests[r].(workerHolds := false))
    case Restart(at) => Hub(false, map[], FailInterrupted(s.rows, at), s.posts)
  }

  // ---- Invariants ----

  predicate Holds(q: Request) {
    q.handlerHolds || q.workerHolds
  }

  // Between the lock and the deferred unlock.
  predicate Inside(stage: Stage) {
    stage.Locked? || stage.Created? || stage.Started? || stage.Posting? || stage.Answered?
  }

  predicate RequestOk(q: Request) {
    && !(q.handlerHolds && q.workerHolds)
    && (Inside(q.stage) ==> Holds(q))
    && (Holds(q) ==> q.locks == 1 && q.unlocks == 0)
    && (!Holds(q) ==> q.locks == q.unlocks <= 1)
    && (q.workerHolds ==> q.handedOver)
    && (q.handedOver ==> !q.handlerHolds && q.deployment)
    && (q.stage.Arrived? ==> q.locks == 0 && !q.handedOver)
  }

  // What the audit row of a request shows at each stage.
  predicate RowFits(q: Request, rows: Rows, posts: map<string, nat>) {
    match q.stage
    case Created => q.op in rows && rows[q.op].state.Requested? && Posts(posts, q.op) == 0
    case Started => q.op in rows && rows[q.op].state.Running? && Posts(posts, q.op) == 0
    case Posting => q.op in rows && rows[q.op].state.Running?
    case Answered => q.op in rows && rows[q.op].state.Running?
    case _ => true
  }

  // Every request is in order, and the lock is taken exactly when one request holds it.
  ghost predicate RequestsOk(s: Hub) {
    && (forall r :: r in s.requests ==> RequestOk(s.requests[r]) && RowFits(s.requests[r], s.rows, s.posts))
    && (forall r :: r in s.requests && Holds(s.requests[r]) ==> s.locked)
    && (forall r, q :: r in s.requests && q in s.requests && Holds(s.requests[r]) && Holds(s.requests[q]) ==> r == q)
    && (s.locked ==> exists r :: r in s.requests && Holds(s.requests[r]))
  }

  // One POST at most per operation, and only for operations with a row.
  ghost predicate PostsOk(s: Hub) {
    forall id :: Posts(s.posts, id) <= 1 && (Posts(s.posts, id) == 1 ==> id in s.rows)
  }

  ghost predicate Inv(s: Hub) {
    RowsOk(s.rows) && RequestsOk(s) && PostsOk(s)
  }

  predicate HeldBy(s: Hub, r: nat) {
    r in s.requests && Holds(s.requests[r])
  }

  // A step of one request that takes, keeps or gives back the lock keeps the
  // rest in order: nobody else is between lock and unlock when it writes.
  lemma MoveKeeps(s: Hub, r: nat, s': Hub)
    requires RequestsOk(s) && r in s'.requests && s'.requests == s.requests[r := s'.requests[r]]
    requires RequestOk(s'.requests[r]) && RowFits(s'.requests[r], s'.rows, s'.posts)
    requires HeldBy(s, r) || (s'.rows == s.rows && s'.posts == s.posts)
    requires HeldBy(s', r) ==> HeldBy(s, r) || !s.locked
    requires s'.locked == (HeldBy(s', r) || (s.locked && !HeldBy(s, r)))
    ensures RequestsOk(s')
  {
    forall q | q in s.requests && q != r
      ensures RequestOk(s'.requests[q]) && RowFits(s'.requests[q], s'.rows, s'.posts)
      ensures Holds(s'.requests[q]) ==> s.locked && !HeldBy(s, r)
    {
      assert RequestOk(s.requests[q]) && RowFits(s.requests[q], s.rows, s.posts);
    }
    if s'.locked && !HeldBy(s', r) {
      var h :| h in s.requests && Holds(s.requests[h]);
      assert Holds(s'.requests[h]);
    }
  }

  // The three steps that write an audit row.
  lemma CreateKeeps(s: Hub, r: nat, op: Operation, durable: bool, told: bool)
    requires RequestsOk(s) && PostsOk(s) && At(s, r, Locked)
    ensures RequestsOk(Next(s, Create(r, op, durable, told)))
  {
    assert RequestOk(s.requests[r]) && RowFits(s.requests[r], s.rows, s.posts);
    MoveKeeps(s, r, Next(s, Create(r, op, durable, told)));
  }

  lemma StartKeeps(s: Hub, r: nat, at: int, durable: bool, told: bool)
    requires RowsOk(s.rows) && RequestsOk(s) && At(s, r, Created)
    ensures RequestsOk(Next(s, Start(r, at, durable, told)))
  {
    assert RequestOk(s.requests[r]) && RowFits(s.requests[r], s.rows, s.posts);
    assert s.rows[s.requests[r].op].id == s.requests[r].op;
    MoveKeeps(s, r, Next(s, Start(r, at, durable, told)));
  }

  lemma FinishKeeps(s: Hub, r: nat, f: Finish, durable: bool)
    requires RequestsOk(s) && At(s, r, Answered)
    ensures RequestsOk(Next(s, FinishRow(r, f, durable)))
  {
    assert RequestOk(s.requests[r]) && RowFits(s.requests[r], s.rows, s.posts);
    MoveKeeps(s, r, Next(s, FinishRow(r, f, durable)));
  }

  lemma LockStepKeeps(s: Hub, step: Step)
    requires RequestsOk(s) && Enabled(s, step)
    requires step.Arrive? || step.TryLock? || step.HandlerReturns? || step.WorkerReturns?
    ensures RequestsOk(Next(s, step))
  {
    assert step.r in s.requests ==> RequestOk(s.requests[step.r]) && RowFits(s.requests[step.r], s.rows, s.posts);
    MoveKeeps(s, step.r, Next(s, step));
  }

  lemma PostStepKeeps(s: Hub, step: Step)
    requires RequestsOk(s) && Enabled(s, step) && (step.HandOver? || step.Post? || step.Receive?)
    ensures RequestsOk(Next(s, step))
  {
    assert RequestOk(s.requests[step.r]) && RowFits(s.requests[step.r], s.rows, s.posts);
    MoveKeeps(s, step.r, Next(s, step));
  }

  lemma RequestsKeep(s: Hub, step: Step)
    requires RowsOk(s.rows) && RequestsOk(s) && PostsOk(s) && Enabled(s, step)
    ensures RequestsOk(Next(s, step))
  {
    if step.Create? {
      CreateKeeps(s, step.r, step.op, step.durable, step.told);
    } else if step.Start? {
      StartKeeps(s, step.r, step.at, step.durable, step.told);
    } else if step.FinishRow? {
      FinishKeeps(s, step.r, step.f, step.durable);
    } else if step.Arrive? || step.TryLock? || step.HandlerReturns? || step.WorkerReturns? {
      LockStepKeeps(s, step);
    } else if !step.Restart? {
      PostStepKeeps(s, step);
    }
  }

  lemma RowsKeep(s: Hub, step: Step)
    requires RowsOk(s.rows) && Enabled(s, step)
    ensures RowsOk(Next(s, step).rows) && Forward(s.rows, Next(s, step).rows)
  {
    match step
    case Create(r, op, durable, told) => CreateKeepsRows(s.rows, op);
    case Start(r, at, durable, told) => StartKeepsRows(s.rows, s.requests[r].op, at);
    case FinishRow(r, f, durable) => FinishKeepsRows(s.rows, s.requests[r].op, f);
    case Restart(at) => RestartClosesRows(s.rows, at);
    case _ =>
  }

  lemma PostsKeep(s: Hub, step: Step)
    requires RequestsOk(s) && PostsOk(s) && Enabled(s, step) && Forward(s.rows, Next(s, step).rows)
    ensures PostsOk(Next(s, step))
  {
    var s' := Next(s, step);
    if step.Post? {
      assert RowFits(s.requests[step.r], s.rows, s.posts);
    }
    forall id
      ensures Posts(s'.posts, id) <= 1 && (Posts(s'.posts, id) == 1 ==> id in s'.rows)
    {
      assert Posts(s.posts, id) <= 1 && (Posts(s.posts, id) == 1 ==> id in s.rows);
    }
  }

  lemma StepKeeps(s: Hub, step: Step)
    requires Inv(s) && Enabled(s, step)
    ensures Inv(Next(s, step)) && Forward(s.rows, Next(s, step).rows)
  {
    RequestsKeep(s, step);
    RowsKeep(s, step);
    PostsKeep(s, step);
  }

  // ---- Whole runs ----

  ghost predicate Run(states: seq<Hub>, steps: seq<Step>) {
    && |states| == |steps| + 1
    && states[0] == START
    && forall i :: 0 <= i < |steps| ==> StepAt(states, steps, i)
  }

  ghost predicate StepAt(states: seq<Hub>, steps: seq<Step>, i: int) {
    0 <= i < |steps| < |states| && Enabled(states[i], steps[i]) && states[i + 1] == Next(states[i], steps[i])
  }

  lemma {:induction false} RunKeeps(states: seq<Hub>, steps: seq<Step>, n: nat)
    requires Run(states, steps) && n < |states|
    ensures Inv(states[n])
  {
    if n > 0 {
      RunKeeps(states, steps, n - 1);
      assert StepAt(states, steps, n - 1);
      StepKeeps(states[n - 1], steps[n - 1]);
    }
  }

  // At most one remote POST of this process is in flight, and only while the
  // lock is held.
  lemma AtMostOnePostInFlight(states: seq<Hub>, steps: seq<Step>, n: nat, r: nat, q: nat)
    requires Run(states, steps) && n < |states|
    requires At(states[n], r, Posting) && At(states[n], q, Posting)
    ensures r == q && states[n].locked
  {
    RunKeeps(states, steps, n);
    assert RequestOk(states[n].requests[r]) && RequestOk(states[n].requests[q]);
  }

  // A POST goes out only for an audit row that is already stored as running,
  // and at most once per operation, restarts included.
  lemma PostsAreAuditedAndSingle(states: seq<Hub>, steps: seq<Step>, n: nat)
    requires Run(states, steps) && n < |states|
    ensures n < |steps| && steps[n].Post? ==>
      && steps[n].r in states[n].requests
      && states[n].requests[steps[n].r].op in states[n].rows
      && states[n].rows[states[n].requests[steps[n].r].op].state.Running?
      && Posts(states[n].posts, states[n].requests[steps[n].r].op) == 0
    ensures forall id :: Posts(states[n].posts, id) <= 1
  {
    RunKeeps(states, steps, n);
    if n < |steps| && steps[n].Post? {
      assert StepAt(states, steps, n);
      assert RowFits(states[n].requests[steps[n].r], states[n].rows, states[n].posts);
    }
  }

  // Every request that took the lock releases it exactly once: it holds it
  // until then, and a closed request has nothing left to release.
  lemma LockReleasedOnce(states: seq<Hub>, steps: seq<Step>, n: nat, r: nat)
    requires Run(states, steps) && n < |states| && r in states[n].requests
    ensures var q := states[n].requests[r];
      && q.unlocks <= q.locks <= 1
      && (Holds(q) <==> q.unlocks < q.locks)
      && (Holds(q) ==> states[n].locked)
      && !(q.handlerHolds && q.workerHolds)
    ensures states[n].locked <==> exists q :: q in states[n].requests && Holds(states[n].requests[q])
  {
    RunKeeps(states, steps, n);
    assert RequestOk(states[n].requests[r]);
  }

  // Rows satisfy the validation in every state, and a finished row is final.
  lemma {:induction false} AuditRowsAreFinal(states: seq<Hub>, steps: seq<Step>, m: nat, n: nat, id: string)
    requires Run(states, steps) && m <= n < |states| && id in states[m].rows
    ensures id in states[n].rows && Valid(states[n].rows[id]) && RowForward(states[m].rows[id], states[n].rows[id])
    decreases n
  {
    RunKeeps(states, steps, n);
    if m < n {
      AuditRowsAreFinal(states, steps, m, n - 1, id);
      RunKeeps(states, steps, n - 1);
      assert StepAt(states, steps, n - 1);
      StepKeeps(states[n - 1], steps[n - 1]);
    }
  }

  // ---- Undisturbed requests ----

  // The steps of a request from its arrival to its return: up to the row that
  // runs, and from there.
  function Opening(r: nat, deployment: bool, op: Operation, startedAt: int): seq<Step> {
    [Arrive(r, deployment), TryLock(r), Create(r, op, true, true), Start(r, startedAt, true, true)]
  }

  function Closing(r: nat, deployment: bool, f: Finish): seq<Step> {
    (if deployment then [HandOver(r)] else [])
    + [Post(r), Receive(r), FinishRow(r, f, true), if deployment then WorkerReturns(r) else HandlerReturns(r)]
  }

  // What the row of an operation is after it was created, started and finished.
  function Done(op: Operation, startedAt: int, f: Finish): Operation {
    op.(state := f.state, startedAt := Some(startedAt), finishedAt := Some(f.at), summary := f.summary, error := f.error,
        afterReleaseId := f.afterReleaseId,
        beforeReleaseId := if f.confirmedBeforeReleaseId != "" then f.confirmedBeforeReleaseId else op.beforeReleaseId)
  }

  // The hub after some steps, as long as each of them can be taken.
  function Takes(s: Hub, steps: seq<Step>): Option<Hub>
    decreases |steps|
  {
    if steps == [] then Some(s)
    else if !Enabled(s, steps[0]) then None
    else Takes(Next(s, steps[0]), steps[1..])
  }

  // The hub with one request in the given stage.
  function With(s: Hub, r: nat, q: Request, locked: bool, rows: Rows, posts: map<string, nat>): Hub {
    Hub(locked, s.requests[r := q], rows, posts)
  }

  lemma {:induction false} TakesThen(s: Hub, a: seq<Step>, b: seq<Step>)
    requires Takes(s, a).Some?
    ensures Takes(s, a + b) == Takes(Takes(s, a).value, b)
    decreases |a|
  {
    if a == [] {
      assert a + b == b;
    } else {
      assert (a + b)[1..] == a[1..] + b;
      TakesThen(Next(s, a[0]), a[1..], b);
    }
  }

  predicate StepsTo(s: Hub, step: Step, s': Hub) {
    Enabled(s, step) && Next(s, step) == s'
  }

  lemma TakesOne(s: Hub, step: Step, rest: seq<Step>, s': Hub)
    requires StepsTo(s, step, s')
    ensures Takes(s, [step] + rest) == Takes(s', rest)
  {
    assert ([step] + rest)[1..] == rest;
  }

  lemma TakesFour(states: seq<Hub>, steps: seq<Step>)
    requires |states| == 5 && |steps| == 4
    requires forall i :: 0 <= i < 4 ==> StepsTo(states[i], steps[i], states[i + 1])
    ensures Takes(states[0], steps) == Some(states[4])
  {
    assert steps == [steps[0]] + steps[1..] && steps[1..] == [steps[1]] + steps[2..];
    assert steps[2..] == [steps[2]] + steps[3..] && steps[3..] == [steps[3]] + [];
    TakesOne(states[0], steps[0], steps[1..], states[1]);
    TakesOne(states[1], steps[1], steps[2..], states[2]);
    TakesOne(states[2], steps[2], steps[3..], states[3]);
    TakesOne(states[3], steps[3], [], states[4]);
  }

  // The stages of a request that nothing disturbs, one by one.
  function Stages(s: Hub, r: nat, deployment: bool, op: Operation, startedAt: int): (states: seq<Hub>)
    ensures |states| == 5
  {
    var q := Request(deployment, op.id, Created, true, false, false, 1, 0);
    [s,
     With(s, r, Request(deployment, "", Arrived, false, false, false, 0, 0), false, s.rows, s.posts),
     With(s, r, Request(deployment, "", Locked, true, false, false, 1, 0), true, s.rows, s.posts),
     With(s, r, q, true, s.rows[op.id := op], s.posts),
     With(s, r, q.(stage := Started), true, s.rows[op.id := Table.Started(op, startedAt)], s.posts)]
  }

  lemma LockTaken(s: Hub, r: nat, deployment: bool, op: Operation, startedAt: int)
    requires r !in s.requests && !s.locked
    ensures var states := Stages(s, r, deployment, op, startedAt);
      StepsTo(s, Arrive(r, deployment), states[1]) && StepsTo(states[1], TryLock(r), states[2])
  {
  }

  lemma RowCreated(s: Hub, r: nat, deployment: bool, op: Operation, startedAt: int)
    requires op.state.Requested? && Valid(op) && op.id !in s.rows
    ensures var states := Stages(s, r, deployment, op, startedAt);
      StepsTo(states[2], Create(r, op, true, true), states[3])
  {
  }

  lemma RowStarted(s: Hub, r: nat, deployment: bool, op: Operation, startedAt: int)
    requires op.state.Requested? && Valid(Table.Started(op, startedAt))
    ensures var states := Stages(s, r, deployment, op, startedAt);
      StepsTo(states[3], Start(r, startedAt, true, true), states[4])
  {
    var states := Stages(s, r, deployment, op, startedAt);
    assert states[3].rows[op.id := Table.Started(op, startedAt)] == states[4].rows;
  }

  lemma OpeningTaken(s: Hub, r: nat, deployment: bool, op: Operation, startedAt: int)
    requires r !in s.requests && !s.locked
    requires op.state.Requested? && Valid(op) && op.id !in s.rows && Valid(Table.Started(op, startedAt))
    ensures Takes(s, Opening(r, deployment, op, startedAt)) == Some(Stages(s, r, deployment, op, startedAt)[4])
  {
    LockTaken(s, r, deployment, op, startedAt);
    RowCreated(s, r, deployment, op, startedAt);
    RowStarted(s, r, deployment, op, startedAt);
    TakesFour(Stages(s, r, deployment, op, startedAt), Opening(r, deployment, op, startedAt));
  }

  // The request from its POST to the record of its finish.
  function PostStages(s: Hub, r: nat, op: Operation, startedAt: int, f: Finish): (states: seq<Hub>)
    requires r in s.requests
    ensures |states| == 4
  {
    var q, posts := s.requests[r], s.posts[op.id := 1];
    [s,
     With(s, r, q.(stage := Posting), s.locked, s.rows, posts),
     With(s, r, q.(stage := Answered), s.locked, s.rows, posts),
     With(s, r, q.(stage := Closed), s.locked, s.rows[op.id := Done(op, startedAt, f)], posts)]
  }

  lemma PostSent(s: Hub, r: nat, op: Operation, startedAt: int, f: Finish)
    requires MayPost(s, r) && s.requests[r].op == op.id && Posts(s.posts, op.id) == 0
    ensures var states := PostStages(s, r, op, startedAt, f);
      StepsTo(s, Post(r), states[1]) && StepsTo(states[1], Receive(r), states[2])
  {
  }

  lemma RowFinished(s: Hub, r: nat, op: Operation, startedAt: int, f: Finish)
    requires r in s.requests && s.requests[r].op == op.id
    requires op.state.Requested? && op.id in s.rows && s.rows[op.id] == Table.Started(op, startedAt)
    requires f.state in {Succeeded, Failed, RolledBack} && Valid(Done(op, startedAt, f))
    ensures var states := PostStages(s, r, op, startedAt, f); StepsTo(states[2], FinishRow(r, f, true), states[3])
  {
    assert Finished(Table.Started(op, startedAt), f) == Done(op, startedAt, f);
  }

  lemma PostTaken(s: Hub, r: nat, op: Operation, startedAt: int, f: Finish, last: Step, s': Hub)
    requires MayPost(s, r) && s.requests[r].op == op.id && Posts(s.posts, op.id) == 0
    requires op.state.Requested? && op.id in s.rows && s.rows[op.id] == Table.Started(op, startedAt)
    requires f.state in {Succeeded, Failed, RolledBack} && Valid(Done(op, startedAt, f))
    requires StepsTo(PostStages(s, r, op, startedAt, f)[3], last, s')
    ensures Takes(s, [Post(r), Receive(r), FinishRow(r, f, true), last]) == Some(s')
  {
    PostSent(s, r, op, startedAt, f);
    RowFinished(s, r, op, startedAt, f);
    TakesFour(PostStages(s, r, op, startedAt, f) + [s'], [Post(r), Receive(r), FinishRow(r, f, true), last]);
  }

  lemma HandledTaken(s: Hub, r: nat, op: Operation, startedAt: int, f: Finish)
    requires r in s.requests && s.requests[r] == Request(false, op.id, Started, true, false, false, 1, 0)
    requires Posts(s.posts, op.id) == 0
    requires op.state.Requested? && op.id in s.rows && s.rows[op.id] == Table.Started(op, startedAt)
    requires f.state in {Succeeded, Failed, RolledBack} && Valid(Done(op, startedAt, f))
    ensures Takes(s, Closing(r, false, f))
         == Some(With(s, r, Request(false, op.id, Closed, false, false, false, 1, 1), false,
                      s.rows[op.id := Done(op, startedAt, f)], s.posts[op.id := 1]))
  {
    assert Closing(r, false, f) == [Post(r), Receive(r), FinishRow(r, f, true), HandlerReturns(r)];
    PostTaken(s, r, op, startedAt, f, HandlerReturns(r),
              With(s, r, Request(false, op.id, Closed, false, false, false, 1, 1), false,
                   s.rows[op.id := Done(op, startedAt, f)], s.posts[op.id := 1]));
  }

  lemma HandedOverTaken(s: Hub, r: nat, op: Operation, startedAt: int, f: Finish)
    requires r in s.requests && s.requests[r] == Request(true, op.id, Started, true, false, false, 1, 0)
    requires Posts(s.posts, op.id) == 0
    requires op.state.Requested? && op.id in s.rows && s.rows[op.id] == Table.Started(op, startedAt)
    requires f.state in {Succeeded, Failed, RolledBack} && Valid(Done(op, startedAt, f))
    ensures Takes(s, Closing(r, true, f))
         == Some(With(s, r, Request(true, op.id, Closed, false, false, true, 1, 1), false,
                      s.rows[op.id := Done(op, startedAt, f)], s.posts[op.id := 1]))
  {
    var h := With(s, r, Request(true, op.id, Started, false, true, true, 1, 0), s.locked, s.rows, s.posts);
    TakesOne(s, HandOver(r), [Post(r), Receive(r), FinishRow(r, f, true), WorkerReturns(r)], h);
    PostTaken(h, r, op, startedAt, f, WorkerReturns(r),
              With(s, r, Request(true, op.id, Closed, false, false, true, 1, 1), false,
                   s.rows[op.id := Done(op, startedAt, f)], s.posts[op.id := 1]));
  }

  lemma CourseTaken(s: Hub, r: nat, deployment: bool, op: Operation, startedAt: int, f: Finish)
    requires r !in s.requests && !s.locked && Posts(s.posts, op.id) == 0
    requires op.state.Requested? && Valid(op) && op.id !in s.rows && Valid(Table.Started(op, startedAt))
    requires f.state in {Succeeded, Failed, RolledBack} && Valid(Done(op, startedAt, f))
    ensures var after := Takes(s, Opening(r, deployment, op, startedAt) + Closing(r, deployment, f));
      && after.Some?
      && after.value.rows == s.rows[op.id := Done(op, startedAt, f)]
      && after.value.posts == s.posts[op.id := 1]
      && !after.value.locked && !HeldBy(after.value, r)
  {
    var a, b := Opening(r, deployment, op, startedAt), Closing(r, deployment, f);
    var m := Stages(s, r, deployment, op, startedAt)[4];
    assert Takes(s, a + b) == Takes(m, b) by {
      OpeningTaken(s, r, deployment, op, startedAt);
      TakesThen(s, a, b);
    }
    if deployment {
      HandedOverTaken(m, r, op, startedAt, f);
    } else {
      HandledTaken(m, r, op, startedAt, f);
    }
  }

  // A request that finds the lock free, and whose operation is new and valid at
  // every stage, runs to its end: one POST goes out, the row holds the finish,
  // and the lock is free again.
  lemma UndisturbedRequest(s: Hub, r: nat, deployment: bool, op: Operation, startedAt: int, f: Finish)
    requires Inv(s) && r !in s.requests && !s.locked
    requires op.state.Requested? && Valid(op) && op.id !in s.rows && Valid(Table.Started(op, startedAt))
    requires f.state in {Succeeded, Failed, RolledBack} && Valid(Done(op, startedAt, f))
    ensures var after := Takes(s, Opening(r, deployment, op, startedAt) + Closing(r, deployment, f));
      && after.Some?
      && after.value.rows == s.rows[op.id := Done(op, startedAt, f)]
      && after.value.posts == s.posts[op.id := 1]
      && !after.value.locked && !HeldBy(after.value, r)
  {
    assert Posts(s.posts, op.id) <= 1 && (Posts(s.posts, op.id) == 1 ==> op.id in s.rows);
    CourseTaken(s, r, deployment, op, startedAt, f);
  }

  // A request that finds the lock taken is turned away and leaves no trace.
  lemma SecondIsTurnedAway(s: Hub, r: nat)
    requires At(s, r, Arrived) && s.locked
    ensures var after := Next(s, TryLock(r));
      && after.locked && after.rows == s.rows && after.posts == s.posts && At(after, r, Closed)
  {
  }
}
