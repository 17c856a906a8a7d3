/**
 `run_job` and the worker state it reports to: a deque of tasks that spawn subtasks, the row
 a job has in the database, and the cancellation token it has in memory.
*/
module JobRunner {
  import opened Wrappers

  type JobId = string
  type Log = string

  datatype Status = Queued | Running | Paused | Completed | Cancelled | Failed

  predicate IsResolved(status: Status) {
    status.Completed? || status.Cancelled? || status.Failed?
  }

  datatype JobError = InitError | TaskError | FinalizeError | DbError

  // ------------------------------------------------------------------------ task trees

  /** A task together with what executing it will answer. */
  datatype Task<O> = Task(id: nat, outcome: TaskOutcome<O>)

  datatype TaskOutcome<O> =
    | Succeeds(output: O, logs: seq<Log>, subtasks: seq<Task<O>>)
    | Fails

  datatype WorkingState<O> = WorkingState(output: Option<O>, tasks: seq<Task<O>>, logs: seq<Log>)

  datatype Job<O> = Job(init: Result<WorkingState<O>, JobError>, finalizeOk: bool)

  /** Depth-first preorder of a forest: each task, then everything it spawns, then the next. */
  function Preorder<O>(forest: seq<Task<O>>): seq<Task<O>>
    decreases forest, 0
  {
    if forest == [] then [] else PreorderFrom(forest[0]) + Preorder(forest[1..])
  }

  function PreorderFrom<O>(task: Task<O>): seq<Task<O>>
    decreases task, 1
  {
    match task.outcome
    case Succeeds(_, _, subtasks) => [task] + Preorder(subtasks)
    case Fails => [task]
  }

  /** The number of tasks reachable from a forest. */
  function Size<O>(forest: seq<Task<O>>): nat
    decreases forest, 0
  {
    if forest == [] then 0 else SizeFrom(forest[0]) + Size(forest[1..])
  }

  function SizeFrom<O>(task: Task<O>): nat
    decreases task, 1
  {
    match task.outcome
    case Succeeds(_, _, subtasks) => 1 + Size(subtasks)
    case Fails => 1
  }

  lemma {:induction false} PreorderConcat<O>(a: seq<Task<O>>, b: seq<Task<O>>)
    ensures Preorder(a + b) == Preorder(a) + Preorder(b)
    ensures Size(a + b) == Size(a) + Size(b)
    decreases |a|
  {
    if a == [] {
      assert a + b == b;
    } else {
      PreorderConcat(a[1..], b);
      assert (a + b)[0] == a[0] && (a + b)[1..] == a[1..] + b;
      Associates(PreorderFrom(a[0]), Preorder(a[1..]), Preorder(b));
    }
  }

  lemma Associates<T>(a: seq<T>, b: seq<T>, c: seq<T>)
    ensures a + (b + c) == (a + b) + c
  {
  }

  /** The preorder visits as many tasks as the forest holds. */
  lemma {:induction false} PreorderVisitsEveryTask<O>(forest: seq<Task<O>>)
    ensures |Preorder(forest)| == Size(forest)
    decreases forest, 0
  {
    if forest != [] {
      PreorderFromVisitsEveryTask(forest[0]);
      PreorderVisitsEveryTask(forest[1..]);
    }
  }

  lemma {:induction false} PreorderFromVisitsEveryTask<O>(task: Task<O>)
    ensures |PreorderFrom(task)| == SizeFrom(task)
    decreases task, 1
  {
    if task.outcome.Succeeds? {
      PreorderVisitsEveryTask(task.outcome.subtasks);
    }
  }

  /** Replacing the head of the deque by what it spawned: the order that remains. */
  lemma PopAndPush<O>(tasks: seq<Task<O>>)
    requires tasks != [] && tasks[0].outcome.Succeeds?
    ensures
      var next := tasks[0].outcome.subtasks + tasks[1..];
      Preorder(tasks) == [tasks[0]] + Preorder(next) && Size(tasks) == 1 + Size(next)
  {
    PreorderConcat(tasks[0].outcome.subtasks, tasks[1..]);
  }

  // ----------------------------------------------------------------- what a run amounts to

  /** The left fold of `update` over the outputs of tasks that succeeded. */
  function Folded<O>(update: (O, O) -> O, start: O, tasks: seq<Task<O>>): O {
    if tasks == [] then start
    else
      var before := Folded(update, start, tasks[..|tasks| - 1]);
      var last := tasks[|tasks| - 1];
      if last.outcome.Succeeds? then update(before, last.outcome.output) else before
  }

  function AllLogs<O>(start: seq<Log>, tasks: seq<Task<O>>): seq<Log> {
    if tasks == [] then start
    else
      var before := AllLogs(start, tasks[..|tasks| - 1]);
      var last := tasks[|tasks| - 1];
      if last.outcome.Succeeds? then before + last.outcome.logs else before
  }

  lemma OneMoreTask<O>(update: (O, O) -> O, start: O, logs: seq<Log>, tasks: seq<Task<O>>, task: Task<O>)
    requires task.outcome.Succeeds?
    ensures Folded(update, start, tasks + [task]) == update(Folded(update, start, tasks), task.outcome.output)
    ensures AllLogs(logs, tasks + [task]) == AllLogs(logs, tasks) + task.outcome.logs
  {
    assert (tasks + [task])[..|tasks|] == tasks;
  }

  /** `cancelled(i)`: what the token answers when the loop looks at it for the `i`-th time. */
  ghost predicate Stops<O>(order: seq<Task<O>>, cancelled: nat -> bool, i: nat)
    requires i < |order|
  {
    cancelled(i) || order[i].outcome.Fails?
  }

  /** The first position at which a run stops, or the number of tasks. */
  ghost function StopAt<O>(order: seq<Task<O>>, cancelled: nat -> bool, i: nat): (stop: nat)
    requires i <= |order|
    ensures i <= stop <= |order|
    ensures forall k :: i <= k < stop ==> !Stops(order, cancelled, k)
    ensures stop < |order| ==> Stops(order, cancelled, stop)
    decreases |order| - i
  {
    if i == |order| || Stops(order, cancelled, i) then i else StopAt(order, cancelled, i + 1)
  }

  /** How a run ends, and after which tasks. */
  datatype Ending<O> =
    | NeverStarted(executed: seq<Task<O>>)
    | StoppedByCancel(executed: seq<Task<O>>)
    | StoppedByFailure(executed: seq<Task<O>>)
    | RanToEnd(executed: seq<Task<O>>)

  ghost function TasksEnding<O>(tasks: seq<Task<O>>, cancelled: nat -> bool): (ending: Ending<O>)
    ensures !ending.NeverStarted?
  {
    var order := Preorder(tasks);
    var stop := StopAt(order, cancelled, 0);
    if stop == |order| then RanToEnd(order)
    else if cancelled(stop) then StoppedByCancel(order[..stop])
    else StoppedByFailure(order[..stop])
  }

  ghost function EndingOf<O>(job: Job<O>, cancelled: nat -> bool): Ending<O> {
    if job.init.Err? then NeverStarted([]) else TasksEnding(job.init.value.tasks, cancelled)
  }

  /** Between two tasks: what ran and what is still reachable from the deque make up the whole
      order, and nothing has stopped the run yet. */
  ghost predicate InProgress<O>(initial: seq<Task<O>>, cancelled: nat -> bool, executed: seq<Task<O>>, tasks: seq<Task<O>>) {
    var order := Preorder(initial);
    && executed + Preorder(tasks) == order
    && |executed| + Size(tasks) == Size(initial)
    && StopAt(order, cancelled, 0) == StopAt(order, cancelled, |executed|)
  }

  lemma HeadComesNext<O>(tasks: seq<Task<O>>)
    requires tasks != []
    ensures Preorder(tasks) != [] && Preorder(tasks)[0] == tasks[0]
  {
    assert PreorderFrom(tasks[0])[0] == tasks[0];
    assert Preorder(tasks) == PreorderFrom(tasks[0]) + Preorder(tasks[1..]);
  }

  lemma NextInOrder<O>(order: seq<Task<O>>, executed: seq<Task<O>>, left: seq<Task<O>>)
    requires executed + left == order && left != []
    ensures |executed| < |order| && order[|executed|] == left[0] && order[..|executed|] == executed
  {
  }

  lemma NextTask<O>(initial: seq<Task<O>>, cancelled: nat -> bool, executed: seq<Task<O>>, tasks: seq<Task<O>>)
    requires InProgress(initial, cancelled, executed, tasks) && tasks != []
    ensures
      var task := tasks[0];
      if cancelled(|executed|) then TasksEnding(initial, cancelled) == StoppedByCancel(executed)
      else if task.outcome.Fails? then TasksEnding(initial, cancelled) == StoppedByFailure(executed)
      else
        var next := task.outcome.subtasks + tasks[1..];
        InProgress(initial, cancelled, executed + [task], next) && Size(next) < Size(tasks)
  {
    var order := Preorder(initial);
    var left := Preorder(tasks);
    HeadComesNext(tasks);
    NextInOrder(order, executed, left);
    if !Stops(order, cancelled, |executed|) {
      PopAndPush(tasks);
      var rest := Preorder(tasks[0].outcome.subtasks + tasks[1..]);
      assert left == [tasks[0]] + rest;
      Associates(executed, [tasks[0]], rest);
    }
  }

  lemma NoTaskLeft<O>(initial: seq<Task<O>>, cancelled: nat -> bool, executed: seq<Task<O>>)
    requires InProgress(initial, cancelled, executed, [])
    ensures TasksEnding(initial, cancelled) == RanToEnd(executed)
  {
  }

  // ------------------------------------------------------------------- the worker state

  datatype JobRow<O> = JobRow(status: Status, output: Option<O>)

  datatype Worker<O> = Worker(
    jobs: map<JobId, JobRow<O>>, logs: seq<(JobId, Log)>, tokens: map<JobId, bool>)

  /** `insert ... on conflict (id) do update set status`, then a fresh token. */
  function Started<O>(w: Worker<O>, id: JobId): Worker<O> {
    var row := if id in w.jobs then w.jobs[id].(status := Running) else JobRow(Running, None);
    w.(jobs := w.jobs[id := row], tokens := w.tokens[id := false])
  }

  /** `update ... where id = ?`, which touches nothing when the row is gone. */
  function WithStatus<O>(jobs: map<JobId, JobRow<O>>, id: JobId, status: Status): map<JobId, JobRow<O>> {
    if id in jobs then jobs[id := jobs[id].(status := status)] else jobs
  }

  /** `fail` when its statement succeeds. */
  function Closed<O>(w: Worker<O>, id: JobId, status: Status): Worker<O> {
    w.(jobs := WithStatus(w.jobs, id, status), tokens := w.tokens - {id})
  }

  function Tagged(id: JobId, logs: seq<Log>): seq<(JobId, Log)> {
    seq(|logs|, i requires 0 <= i < |logs| => (id, logs[i]))
  }

  /** `complete` when both of its statements succeed. */
  function Finished<O>(w: Worker<O>, id: JobId, output: O, logs: seq<Log>): Worker<O> {
    var rows := if id in w.jobs then w.jobs[id := JobRow(Completed, Some(output))] else w.jobs;
    Worker(rows, w.logs + Tagged(id, logs), w.tokens - {id})
  }

  /** Boot-time recovery: every row still Running becomes Cancelled. */
  function Recovered<O>(jobs: map<JobId, JobRow<O>>): map<JobId, JobRow<O>> {
    map id | id in jobs :: if jobs[id].status == Running then jobs[id].(status := Cancelled) else jobs[id]
  }

  /** Which of the writes at the end of a run go through. */
  datatype Writes = Writes(fail: bool, logs: bool, complete: bool)

  /** The worker a run leaves behind. A write that fails leaves the row Running and the token
      in place, and so does a failing `finalize`. */
  ghost function AfterRun<O>(w: Worker<O>, id: JobId, job: Job<O>, update: (O, O) -> O, default: O,
                             cancelled: nat -> bool, writes: Writes): Worker<O>
  {
    match EndingOf(job, cancelled)
    case NeverStarted(_) => if writes.fail then Closed(w, id, Failed) else w
    case StoppedByCancel(_) => if writes.fail then Closed(w, id, Cancelled) else w
    case StoppedByFailure(_) => if writes.fail then Closed(w, id, Failed) else w
    case RanToEnd(order) =>
      var start := job.init.value;
      var output := Folded(update, if start.output.Some? then start.output.value else default, order);
      var logs := AllLogs(start.logs, order);
      if !job.finalizeOk || (logs != [] && !writes.logs) then w
      else if !writes.complete then w.(logs := w.logs + Tagged(id, logs))
      else Finished(w, id, output, logs)
  }

  /** A job ends in a resolved row and no token, or not at all: nothing in between. A Completed row
      has the fold of the outputs of all the tasks, in preorder, and any other row the output it had;
      and the logs are those of `init` and of the tasks, each with the job's id. */
  lemma RunResolvesOrLeavesRunning<O>(w: Worker<O>, id: JobId, job: Job<O>, update: (O, O) -> O, default: O,
                                      cancelled: nat -> bool, writes: Writes)
    requires id in w.jobs && w.jobs[id].status == Running && id in w.tokens
    ensures
      var w' := AfterRun(w, id, job, update, default, cancelled, writes);
      var ending := EndingOf(job, cancelled);
      && id in w'.jobs
      && (IsResolved(w'.jobs[id].status) <==> id !in w'.tokens)
      && (!IsResolved(w'.jobs[id].status) ==> w'.jobs[id] == w.jobs[id])
      && (w'.jobs[id].status == Cancelled <==> ending.StoppedByCancel? && writes.fail)
      && (w'.jobs[id].status == Failed <==> (ending.NeverStarted? || ending.StoppedByFailure?) && writes.fail)
      && (w'.jobs[id].status == Completed <==>
           ending.RanToEnd? && job.finalizeOk && writes.complete
           && (AllLogs(job.init.value.logs, ending.executed) == [] || writes.logs))
      && (forall other :: other in w.jobs && other != id ==> other in w'.jobs && w'.jobs[other] == w.jobs[other])
      && (w'.jobs[id].status == Completed ==>
           var start := job.init.value;
           w'.jobs[id].output ==
             Some(Folded(update, start.output.UnwrapOr(default), Preorder(start.tasks))))
      && (w'.jobs[id].status != Completed ==> w'.jobs[id].output == w.jobs[id].output)
      && LogsAfterRun(w.logs, w'.logs, id,
           if ending.RanToEnd? && job.finalizeOk && writes.logs
           then AllLogs(job.init.value.logs, Preorder(job.init.value.tasks)) else [])
  {
    if EndingOf(job, cancelled).RanToEnd? {
      RanInPreorder(job.init.value.tasks, cancelled);
    }
  }

  /** These logs have been added, with the id of the job. */
  ghost predicate LogsAfterRun(before: seq<(JobId, Log)>, after: seq<(JobId, Log)>, id: JobId, added: seq<Log>) {
    && |after| == |before| + |added|
    && (forall k :: 0 <= k < |before| ==> after[k] == before[k])
    && (forall k :: 0 <= k < |added| ==> after[|before| + k] == (id, added[k]))
  }

  lemma RanInPreorder<O>(tasks: seq<Task<O>>, cancelled: nat -> bool)
    requires TasksEnding(tasks, cancelled).RanToEnd?
    ensures TasksEnding(tasks, cancelled).executed == Preorder(tasks)
  {
  }

  /** What the tasks put out, one after the other. */
  function Outputs<T>(tasks: seq<Task<seq<T>>>): seq<T> {
    if tasks == [] then []
    else (if tasks[0].outcome.Succeeds? then tasks[0].outcome.output else []) + Outputs(tasks[1..])
  }

  function LogsOf<O>(tasks: seq<Task<O>>): seq<Log> {
    if tasks == [] then []
    else (if tasks[0].outcome.Succeeds? then tasks[0].outcome.logs else []) + LogsOf(tasks[1..])
  }

  lemma {:induction false} LogsOfLast<O>(tasks: seq<Task<O>>, task: Task<O>)
    ensures LogsOf(tasks + [task]) == LogsOf(tasks) + if task.outcome.Succeeds? then task.outcome.logs else []
  {
    if tasks == [] {
      assert [] + [task] == [task];
    } else {
      LogsOfLast(tasks[1..], task);
      assert (tasks + [task])[1..] == tasks[1..] + [task];
    }
  }

  /** The logs are those of `init` and then those of the tasks, in their order. */
  lemma {:induction false} LogsKeepTheOrder<O>(start: seq<Log>, tasks: seq<Task<O>>)
    ensures AllLogs(start, tasks) == start + LogsOf(tasks)
    decreases |tasks|
  {
    if tasks != [] {
      var (before, last) := (tasks[..|tasks| - 1], tasks[|tasks| - 1]);
      LogsKeepTheOrder(start, before);
      LogsOfLast(before, last);
      assert before + [last] == tasks;
    }
  }

  lemma {:induction false} OutputsOfLast<T>(tasks: seq<Task<seq<T>>>, task: Task<seq<T>>)
    ensures Outputs(tasks + [task]) == Outputs(tasks) + if task.outcome.Succeeds? then task.outcome.output else []
  {
    if tasks == [] {
      assert [] + [task] == [task];
    } else {
      OutputsOfLast(tasks[1..], task);
      assert (tasks + [task])[1..] == tasks[1..] + [task];
    }
  }

  /** The fold goes from left to right and takes each output once: where updating is appending, it
      gives the start followed by the outputs in their order. */
  lemma {:induction false} FoldKeepsTheOrder<T>(start: seq<T>, tasks: seq<Task<seq<T>>>)
    ensures Folded((a, b) => a + b, start, tasks) == start + Outputs(tasks)
    decreases |tasks|
  {
    if tasks != [] {
      var (before, last) := (tasks[..|tasks| - 1], tasks[|tasks| - 1]);
      FoldKeepsTheOrder(start, before);
      OutputsOfLast(before, last);
      assert before + [last] == tasks;
    }
  }

  /** A cancel stops the run exactly when the loop gets to look at the token before some task;
      one that arrives during the last task comes too late and the job completes. */
  lemma CancelIsHonouredBeforeATask<O>(job: Job<O>, cancelled: nat -> bool)
    requires job.init.Ok?
    ensures
      var order := Preorder(job.init.value.tasks);
      && (EndingOf(job, cancelled).StoppedByCancel? <==>
           exists k: nat :: RunsUpTo(order, cancelled, k) && k < |order| && cancelled(k))
      && (RunsUpTo(order, cancelled, |order|) ==> EndingOf(job, cancelled) == RanToEnd(order))
  {
    var order := Preorder(job.init.value.tasks);
    var stop := StopAt(order, cancelled, 0);
    forall i | 0 <= i < stop ensures !cancelled(i) && order[i].outcome.Succeeds? {
      assert !Stops(order, cancelled, i);
    }
    assert RunsUpTo(order, cancelled, stop);
    forall k: nat | RunsUpTo(order, cancelled, k) && k < |order| && cancelled(k) ensures k == stop {
      StopsHere(order, cancelled, k);
    }
  }

  /** The first `k` tasks succeed, and no cancel is seen before any of them. */
  ghost predicate RunsUpTo<O>(order: seq<Task<O>>, cancelled: nat -> bool, k: nat) {
    k <= |order| && forall i :: 0 <= i < k ==> !cancelled(i) && order[i].outcome.Succeeds?
  }

  lemma StopsHere<O>(order: seq<Task<O>>, cancelled: nat -> bool, k: nat)
    requires RunsUpTo(order, cancelled, k) && k < |order| && Stops(order, cancelled, k)
    ensures StopAt(order, cancelled, 0) == k
  {
  }

  /** The first task that fails ends the run, after exactly the tasks before it. */
  lemma FailureEndsTheRun<O>(job: Job<O>, cancelled: nat -> bool, k: nat)
    requires job.init.Ok?
    requires
      var order := Preorder(job.init.value.tasks);
      RunsUpTo(order, cancelled, k) && k < |order| && !cancelled(k) && order[k].outcome.Fails?
    ensures EndingOf(job, cancelled) == StoppedByFailure(Preorder(job.init.value.tasks)[..k])
  {
    StopsHere(Preorder(job.init.value.tasks), cancelled, k);
  }

  /** A job of one task: a cancel that comes while it runs is never looked at, and the job runs to
      its end. */
  lemma LateCancel<O>(task: Task<O>)
    requires task.outcome.Succeeds? && task.outcome.subtasks == []
    ensures EndingOf(Job(Ok(WorkingState(None, [task], [])), true), i => i > 0) == RanToEnd([task])
  {
    assert Preorder([task][1..]) == [] && PreorderFrom(task) == [task];
    assert Preorder([task]) == [task];
  }

  lemma {:induction false} RecoveryLeavesNoneRunning<O>(jobs: map<JobId, JobRow<O>>)
    ensures Recovered(jobs).Keys == jobs.Keys
    ensures forall id :: id in jobs ==> Recovered(jobs)[id].status != Running
    ensures forall id :: id in jobs && jobs[id].status != Running ==> Recovered(jobs)[id] == jobs[id]
  {
  }

  // --------------------------------------------------------------------------- the code

  /** `ApalisWorkerState`, with the methods of `JobContext` that act on it for one job. */
  class WorkerState<O> {
    var jobs: map<JobId, JobRow<O>>
    var logs: seq<(JobId, Log)>
    var tokens: map<JobId, bool>

    constructor (jobs: map<JobId, JobRow<O>>)
      ensures Value() == Worker(jobs, [], map[])
    {
      this.jobs, this.logs, this.tokens := jobs, [], map[];
    }

    ghost function Value(): Worker<O>
      reads this
    {
      Worker(jobs, logs, tokens)
    }

    /** `JobContext::new`. */
    method NewContext(id: JobId, insertOk: bool) returns (r: Result<(), JobError>)
      modifies this
      ensures r == if insertOk then Ok(()) else Err(DbError)
      ensures Value() == if insertOk then Started(old(Value()), id) else old(Value())
    {
      if !insertOk {
        return Err(DbError);
      }
      jobs := jobs[id := if id in jobs then jobs[id].(status := Running) else JobRow(Running, None)];
      tokens := tokens[id := false];
      r := Ok(());
    }

    /** `cancel_job`: true exactly when there is a token to cancel. */
    method CancelJob(id: JobId) returns (found: bool)
      modifies this`tokens
      ensures found <==> id in old(tokens)
      ensures tokens == if found then old(tokens)[id := true] else old(tokens)
    {
      found := id in tokens;
      if found {
        tokens := tokens[id := true];
      }
    }

    /** `cancel_islanded_jobs`. */
    method CancelIslandedJobs(updateOk: bool) returns (r: Result<(), JobError>)
      modifies this`jobs
      ensures r == if updateOk then Ok(()) else Err(DbError)
      ensures jobs == if updateOk then Recovered(old(jobs)) else old(jobs)
      ensures r.Ok? ==> forall id :: id in jobs ==> jobs[id].status != Running
    {
      if !updateOk {
        return Err(DbError);
      }
      RecoveryLeavesNoneRunning(jobs);
      jobs := Recovered(jobs);
      r := Ok(());
    }

    method Fail(id: JobId, status: Status, updateOk: bool) returns (r: Result<(), JobError>)
      modifies this
      ensures r == if updateOk then Ok(()) else Err(DbError)
      ensures Value() == if updateOk then Closed(old(Value()), id, status) else old(Value())
    {
      if !updateOk {
        return Err(DbError);
      }
      jobs := WithStatus(jobs, id, status);
      tokens := tokens - {id};
      r := Ok(());
    }

    method Cancel(id: JobId, updateOk: bool) returns (r: Result<(), JobError>)
      modifies this
      ensures r == if updateOk then Ok(()) else Err(DbError)
      ensures Value() == if updateOk then Closed(old(Value()), id, Cancelled) else old(Value())
    {
      r := Fail(id, Cancelled, updateOk);
    }

    method Complete(id: JobId, output: O, newLogs: seq<Log>, writes: Writes) returns (r: Result<(), JobError>)
      modifies this
      ensures r.Ok? <==> (newLogs == [] || writes.logs) && writes.complete
      ensures r.Err? ==> r.error == DbError
      ensures Value() ==
        if newLogs != [] && !writes.logs then old(Value())
        else if !writes.complete then old(Value()).(logs := old(logs) + Tagged(id, newLogs))
        else Finished(old(Value()), id, output, newLogs)
      ensures r.Ok? && id in old(jobs) ==> id in jobs && jobs[id] == JobRow(Completed, Some(output)) && id !in tokens
    {
      if newLogs != [] {
        if !writes.logs {
          return Err(DbError);
        }
        logs := logs + Tagged(id, newLogs);
      }
      assert newLogs == [] ==> logs == old(logs) + Tagged(id, newLogs);
      if !writes.complete {
        return Err(DbError);
      }
      if id in jobs {
        jobs := jobs[id := JobRow(Completed, Some(output))];
      }
      tokens := tokens - {id};
      r := Ok(());
    }

    /** The subtasks are pushed onto the front of the deque last to first. */
    static method PushFront(deque: seq<Task<O>>, subtasks: seq<Task<O>>) returns (tasks: seq<Task<O>>)
      ensures tasks == subtasks + deque
    {
      tasks := deque;
      var i := |subtasks|;
      while i > 0
        invariant 0 <= i <= |subtasks|
        invariant tasks == subtasks[i..] + deque
      {
        i := i - 1;
        tasks := [subtasks[i]] + tasks;
      }
    }

    /**
     The worklist loop of `run_job`. `executed` is the sequence of tasks that ran to success,
     in the order in which they ran: the depth-first preorder of the forest, or the prefix of
     it before the task at which the loop stopped.
    */
    static method RunTasks(initial: seq<Task<O>>, first: O, firstLogs: seq<Log>,
                           update: (O, O) -> O, cancelled: nat -> bool)
      returns (ending: Ending<O>, output: O, newLogs: seq<Log>)
      ensures ending == TasksEnding(initial, cancelled)
      ensures output == Folded(update, first, ending.executed)
      ensures newLogs == AllLogs(firstLogs, ending.executed)
    {
      var tasks, executed, completed := initial, [], 0;
      output, newLogs := first, firstLogs;
      while tasks != []
        invariant completed == |executed|
        invariant InProgress(initial, cancelled, executed, tasks)
        invariant output == Folded(update, first, executed)
        invariant newLogs == AllLogs(firstLogs, executed)
        decreases Size(tasks)
      {
        var task := tasks[0];
        NextTask(initial, cancelled, executed, tasks);
        if cancelled(completed) {
          return StoppedByCancel(executed), output, newLogs;
        }
        if task.outcome.Fails? {
          return StoppedByFailure(executed), output, newLogs;
        }
        OneMoreTask(update, first, firstLogs, executed, task);
        tasks := PushFront(tasks[1..], task.outcome.subtasks);
        output := update(output, task.outcome.output);
        newLogs := newLogs + task.outcome.logs;
        executed := executed + [task];
        completed := completed + 1;
      }
      NoTaskLeft(initial, cancelled, executed);
      ending := RanToEnd(executed);
    }

    /** `run_job`: initialise, work the deque off, and write down how it ended. */
    method RunJob(id: JobId, job: Job<O>, update: (O, O) -> O, default: O,
                  cancelled: nat -> bool, writes: Writes)
      returns (r: Result<(), JobError>)
      modifies this
      ensures Value() == AfterRun(old(Value()), id, job, update, default, cancelled, writes)
      ensures r.Ok? && EndingOf(job, cancelled).RanToEnd? && id in old(jobs) ==>
        var start := job.init.value;
        id in jobs && jobs[id] ==
          JobRow(Completed, Some(Folded(update, start.output.UnwrapOr(default), Preorder(start.tasks))))
      ensures
        match EndingOf(job, cancelled)
        case NeverStarted(_) => r == Err(if writes.fail then job.init.error else DbError)
        case StoppedByCancel(_) => r == if writes.fail then Ok(()) else Err(DbError)
        case StoppedByFailure(_) => r == Err(if writes.fail then TaskError else DbError)
        case RanToEnd(order) =>
          && (r.Ok? <==> job.finalizeOk && writes.complete && (AllLogs(job.init.value.logs, order) == [] || writes.logs))
          && (r.Err? ==> r.error == if job.finalizeOk then DbError else FinalizeError)
    {
      if job.init.Err? {
        r := Fail(id, Failed, writes.fail);
        return if r.Ok? then Err(job.init.error) else r;
      }

      var start := job.init.value;
      var first := if start.output.Some? then start.output.value else default;
      var ending, output, newLogs := RunTasks(start.tasks, first, start.logs, update, cancelled);
      match ending
      case StoppedByCancel(_) =>
        r := Cancel(id, writes.fail);
      case StoppedByFailure(_) =>
        r := Fail(id, Failed, writes.fail);
        if r.Ok? {
          r := Err(TaskError);
        }
      case RanToEnd(_) =>
        if !job.finalizeOk {
          return Err(FinalizeError);
        }
        RanInPreorder(start.tasks, cancelled);
        r := Complete(id, output, newLogs, writes);
    }
  }
}
