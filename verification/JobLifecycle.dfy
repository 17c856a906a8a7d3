/**
 The life of job rows and cancellation tokens over whole runs of the server, restarts
 included. Every database statement and every token operation is its own step, any number of
 jobs and cancel or delete requests may interleave, and the server may crash between any two.
*/
module JobLifecycle {
  import opened JobRunner

  /** Where the handler of a dispatched job has got to. */
  datatype Phase =
    | Registering  // the row is inserted, the token is not
    | Working
    | Closing      // the row is resolved, the token is not yet removed

  datatype System = System(
    up: bool, rows: map<JobId, Status>, tokens: map<JobId, bool>,
    inFlight: map<JobId, Phase>, used: set<JobId>)

  datatype Action =
    | Insert(id: JobId)
    | Register(id: JobId)
    | Resolve(id: JobId, status: Status)
    | Release(id: JobId)
    | GiveUp(id: JobId)
    | RequestCancel(id: JobId)
    | Delete(id: JobId)
    | DeleteHistory
    | Crash
    | Boot

  function CancelRunning(rows: map<JobId, Status>): map<JobId, Status> {
    map id | id in rows :: if rows[id] == Running then Cancelled else rows[id]
  }

  predicate InPhase(s: System, id: JobId, phase: Phase) {
    id in s.inFlight && s.inFlight[id] == phase
  }

  predicate Enabled(s: System, a: Action) {
    match a
    // `dispatch_job` draws a new UUID for every job
    case Insert(id) => s.up && id !in s.used
    case Register(id) => s.up && InPhase(s, id, Registering)
    case Resolve(id, status) => s.up && InPhase(s, id, Working) && IsResolved(status)
    case Release(id) => s.up && InPhase(s, id, Closing)
    // `finalize` failed, or the statement that would have resolved the row did
    case GiveUp(id) => s.up && InPhase(s, id, Working)
    case RequestCancel(id) => s.up
    case Delete(id) => s.up
    case DeleteHistory => s.up
    case Crash => s.up
    case Boot => !s.up
  }

  function Do(s: System, a: Action): System
    requires Enabled(s, a)
  {
    match a
    case Insert(id) =>
      s.(rows := s.rows[id := Running], inFlight := s.inFlight[id := Registering], used := s.used + {id})
    case Register(id) => s.(tokens := s.tokens[id := false], inFlight := s.inFlight[id := Working])
    case Resolve(id, status) =>
      s.(rows := if id in s.rows then s.rows[id := status] else s.rows, inFlight := s.inFlight[id := Closing])
    case Release(id) => s.(tokens := s.tokens - {id}, inFlight := s.inFlight - {id})
    case GiveUp(id) => s.(inFlight := s.inFlight - {id})
    case RequestCancel(id) => s.(tokens := if id in s.tokens then s.tokens[id := true] else s.tokens)
    case Delete(id) => s.(rows := s.rows - {id})
    case DeleteHistory => s.(rows := map id | id in s.rows && s.rows[id] == Running :: Running)
    case Crash => s.(up := false, tokens := map[], inFlight := map[])
    case Boot => s.(up := true, rows := CancelRunning(s.rows))
  }

  datatype Run = Run(states: seq<System>, actions: seq<Action>)

  /** Any rows may be left over from earlier builds; nothing is in memory yet. */
  ghost predicate Initial(s: System) {
    !s.up && s.tokens == map[] && s.inFlight == map[] && s.rows.Keys <= s.used
  }

  ghost predicate IsRun(run: Run) {
    && |run.states| == |run.actions| + 1
    && Initial(run.states[0])
    && forall i :: 0 <= i < |run.actions| ==>
         Enabled(run.states[i], run.actions[i]) && run.states[i + 1] == Do(run.states[i], run.actions[i])
  }

  // ------------------------------------------------------------------------- invariants

  ghost predicate JobOk(s: System, id: JobId) {
    && (id in s.rows || id in s.tokens || id in s.inFlight ==> id in s.used)
    && (id in s.rows && s.rows[id] == Running && s.up ==> id in s.tokens || InPhase(s, id, Registering))
    && (InPhase(s, id, Registering) ==> id !in s.tokens && (id in s.rows ==> s.rows[id] == Running))
    && (InPhase(s, id, Working) ==> id in s.tokens && (id in s.rows ==> s.rows[id] == Running))
    && (InPhase(s, id, Closing) ==> id in s.tokens && (id in s.rows ==> IsResolved(s.rows[id])))
    && (id in s.tokens && id !in s.inFlight ==> (id in s.rows ==> s.rows[id] == Running))
  }

  ghost predicate Inv(s: System) {
    && (!s.up ==> s.tokens == map[] && s.inFlight == map[])
    && forall id :: JobOk(s, id)
  }

  lemma StepKeepsInv(s: System, a: Action)
    requires Inv(s) && Enabled(s, a)
    ensures Inv(Do(s, a))
  {
    forall id ensures JobOk(Do(s, a), id) {
      assert JobOk(s, id);
    }
  }

  lemma {:induction false} RunKeepsInv(run: Run, i: nat)
    requires IsRun(run) && i < |run.states|
    ensures Inv(run.states[i])
  {
    if i > 0 {
      RunKeepsInv(run, i - 1);
      StepKeepsInv(run.states[i - 1], run.actions[i - 1]);
      assert run.states[(i - 1) + 1] == Do(run.states[i - 1], run.actions[i - 1]);
    }
  }

  // --------------------------------------------------------------------------- theorems

  /** The only way a row's status may change: from Running to a resolved one. */
  predicate Follows(before: Status, after: Status) {
    after == before || (before == Running && IsResolved(after))
  }

  lemma StepMovesForward(s: System, a: Action, id: JobId)
    requires Inv(s) && Enabled(s, a) && id in s.used
    ensures id in Do(s, a).used
    ensures id !in s.rows ==> id !in Do(s, a).rows
    ensures id in Do(s, a).rows ==> Follows(s.rows[id], Do(s, a).rows[id])
  {
    assert JobOk(s, id);
  }

  /** Over any run, crashes and restarts included, a job's status moves at most once, from
      Running to a terminal status, and a deleted job never comes back. */
  lemma {:induction false} StatusNeverGoesBack(run: Run, i: nat, k: nat, id: JobId)
    requires IsRun(run) && i <= k < |run.states| && id in run.states[i].used
    ensures id in run.states[k].used
    ensures id !in run.states[i].rows ==> id !in run.states[k].rows
    ensures id in run.states[k].rows ==> Follows(run.states[i].rows[id], run.states[k].rows[id])
    decreases k - i
  {
    if i < k {
      StatusNeverGoesBack(run, i, k - 1, id);
      RunKeepsInv(run, k - 1);
      StepMovesForward(run.states[k - 1], run.actions[k - 1], id);
      assert run.states[(k - 1) + 1] == Do(run.states[k - 1], run.actions[k - 1]);
    }
  }

  lemma {:induction false} ReleasedStaysReleased(run: Run, i: nat, k: nat, id: JobId)
    requires IsRun(run) && i <= k < |run.states|
    requires id in run.states[i].used && id !in run.states[i].tokens && id !in run.states[i].inFlight
    ensures id in run.states[k].used && id !in run.states[k].tokens && id !in run.states[k].inFlight
    decreases k - i
  {
    if i < k {
      ReleasedStaysReleased(run, i, k - 1, id);
      assert run.states[(k - 1) + 1] == Do(run.states[k - 1], run.actions[k - 1]);
    }
  }

  /** `complete` and `fail` leave no cancellation token: once either has finished for a job,
      the job has no token and no handler ever again, and its row is resolved or deleted. */
  lemma ClosedJobsHoldNoToken(run: Run, i: nat, k: nat, id: JobId)
    requires IsRun(run) && i < k < |run.states| && run.actions[i] == Release(id)
    ensures id !in run.states[k].tokens && id !in run.states[k].inFlight
    ensures id in run.states[k].rows ==> IsResolved(run.states[k].rows[id])
  {
    RunKeepsInv(run, i);
    assert JobOk(run.states[i], id);
    assert run.states[i + 1] == Do(run.states[i], run.actions[i]);
    ReleasedStaysReleased(run, i + 1, k, id);
    StatusNeverGoesBack(run, i + 1, k, id);
  }

  /** Right after boot-time recovery no row is Running, however earlier runs ended. */
  lemma NoJobIsRunningAfterBoot(run: Run, i: nat, id: JobId)
    requires IsRun(run) && i < |run.actions| && run.actions[i] == Boot
    requires id in run.states[i + 1].rows
    ensures run.states[i + 1].rows[id] != Running
    ensures id in run.states[i].rows
    ensures run.states[i + 1].rows[id] == if run.states[i].rows[id] == Running then Cancelled else run.states[i].rows[id]
  {
    assert run.states[i + 1] == Do(run.states[i], run.actions[i]);
  }

  /** While the server is up, every Running row either holds a token, so that `cancel_job`
      finds it, or is between its two registration steps. */
  lemma RunningJobsCanBeCancelled(run: Run, i: nat, id: JobId)
    requires IsRun(run) && i < |run.states| && run.states[i].up
    requires id in run.states[i].rows && run.states[i].rows[id] == Running
    ensures id in run.states[i].tokens || InPhase(run.states[i], id, Registering)
  {
    RunKeepsInv(run, i);
    assert JobOk(run.states[i], id);
  }

  /** A deleted job is gone for good, and deleting the history deletes exactly the jobs that are not
      Running. */
  lemma DeletedIsGone(run: Run, i: nat, k: nat, id: JobId)
    requires IsRun(run) && i < k < |run.states| && id in run.states[i].used
    requires
      || run.actions[i] == Delete(id)
      || (run.actions[i] == DeleteHistory && id in run.states[i].rows && run.states[i].rows[id] != Running)
    ensures id !in run.states[k].rows
  {
    assert run.states[i + 1] == Do(run.states[i], run.actions[i]);
    StatusNeverGoesBack(run, i + 1, k, id);
  }

  lemma OthersAreKept(run: Run, i: nat, id: JobId)
    requires IsRun(run) && i < |run.actions| && id in run.states[i].rows
    requires
      || (run.actions[i].Delete? && run.actions[i].id != id)
      || (run.actions[i] == DeleteHistory && run.states[i].rows[id] == Running)
    ensures id in run.states[i + 1].rows && run.states[i + 1].rows[id] == run.states[i].rows[id]
  {
    assert run.states[i + 1] == Do(run.states[i], run.actions[i]);
  }

  /** A cancelled token, or no token, and no registration to come. */
  predicate StaysCancelled(s: System, id: JobId) {
    id in s.used && !InPhase(s, id, Registering) && (id in s.tokens ==> s.tokens[id])
  }

  /** A request to cancel that finds a token cancels it for as long as it is there. */
  lemma {:induction false} CancelSticks(run: Run, i: nat, k: nat, id: JobId)
    requires IsRun(run) && i < k < |run.states| && run.actions[i] == RequestCancel(id) && id in run.states[i].tokens
    ensures StaysCancelled(run.states[k], id)
    decreases k
  {
    RunKeepsInv(run, i);
    assert JobOk(run.states[i], id);
    assert Enabled(run.states[k - 1], run.actions[k - 1]);
    assert run.states[(k - 1) + 1] == Do(run.states[k - 1], run.actions[k - 1]);
    if i < k - 1 {
      CancelSticks(run, i, k - 1, id);
    }
  }

  /** And a token is cancelled only if somebody asked for it. */
  lemma {:induction false} CancelledOnRequest(run: Run, k: nat, id: JobId) returns (i: nat)
    requires IsRun(run) && k < |run.states| && id in run.states[k].tokens && run.states[k].tokens[id]
    ensures i < k && run.actions[i] == RequestCancel(id)
  {
    assert Enabled(run.states[k - 1], run.actions[k - 1]);
    assert run.states[(k - 1) + 1] == Do(run.states[k - 1], run.actions[k - 1]);
    if run.actions[k - 1] == RequestCancel(id) {
      i := k - 1;
    } else {
      i := CancelledOnRequest(run, k - 1, id);
    }
  }

  lemma {:induction false} OrphanStays(run: Run, i: nat, k: nat, id: JobId)
    requires IsRun(run) && i <= k < |run.states|
    requires id in run.states[i].used && id !in run.states[i].inFlight
    requires id in run.states[i].rows ==> run.states[i].rows[id] == Running
    requires forall n :: i <= n < k ==> run.actions[n] != Boot
    ensures id in run.states[k].used && id !in run.states[k].inFlight
    ensures id in run.states[k].rows ==> run.states[k].rows[id] == Running
    decreases k - i
  {
    if i < k {
      OrphanStays(run, i, k - 1, id);
      assert run.states[(k - 1) + 1] == Do(run.states[k - 1], run.actions[k - 1]);
    }
  }

  /** A run that ended in a `finalize` or database error leaves its row Running, with nobody
      to resolve it, until the next boot; that boot makes it Cancelled. */
  lemma AbandonedJobWaitsForTheNextBoot(run: Run, i: nat, k: nat, id: JobId)
    requires IsRun(run) && i < k < |run.states| && run.actions[i] == GiveUp(id)
    requires forall n :: i < n < k ==> run.actions[n] != Boot
    ensures id in run.states[k].rows ==> run.states[k].rows[id] == Running
    ensures k < |run.actions| && run.actions[k] == Boot && id in run.states[k].rows ==>
              id in run.states[k + 1].rows && run.states[k + 1].rows[id] == Cancelled
  {
    RunKeepsInv(run, i);
    assert JobOk(run.states[i], id);
    assert run.states[i + 1] == Do(run.states[i], run.actions[i]);
    OrphanStays(run, i + 1, k, id);
    if k < |run.actions| && run.actions[k] == Boot {
      assert run.states[k + 1] == Do(run.states[k], run.actions[k]);
    }
  }

  /** A job whose `finalize` fails: its row is Running, and nobody is left to resolve it. */
  lemma AbandonedJob(id: JobId) returns (run: Run)
    ensures IsRun(run) && |run.actions| == 4 && run.actions[3] == GiveUp(id)
    ensures run.states[4].up && run.states[4].rows == map[id := Running] && run.states[4].inFlight == map[]
  {
    var s0 := System(false, map[], map[], map[], {});
    var s1 := Do(s0, Boot);
    var s2 := Do(s1, Insert(id));
    var s3 := Do(s2, Register(id));
    var s4 := Do(s3, GiveUp(id));
    run := Run([s0, s1, s2, s3, s4], [Boot, Insert(id), Register(id), GiveUp(id)]);
    assert s1.rows == map[] && s4.inFlight == map[];
  }

  /** A row that is Running at any time after a boot belongs to a job dispatched since: whatever
      earlier runs left behind is resolved for good. */
  lemma RunningJobsAreNewerThanTheBoot(run: Run, i: nat, k: nat, id: JobId)
    requires IsRun(run) && i < k < |run.states| && run.actions[i] == Boot
    requires id in run.states[k].rows && run.states[k].rows[id] == Running
    ensures id !in run.states[i].used
  {
    if id in run.states[i].used {
      assert run.states[i + 1] == Do(run.states[i], run.actions[i]);
      StatusNeverGoesBack(run, i + 1, k, id);
      NoJobIsRunningAfterBoot(run, i, id);
    }
  }

  // -------------------------------------------------------- the code takes only these steps

  function Statuses<O>(jobs: map<JobId, JobRow<O>>): map<JobId, Status> {
    map id | id in jobs :: jobs[id].status
  }

  /** The rows and tokens of the system are those of the worker. */
  ghost predicate Shows<O>(s: System, w: Worker<O>) {
    s.rows == Statuses(w.jobs) && s.tokens == w.tokens
  }

  /** `JobContext::new` inserts and registers. */
  lemma StartIsAPath<O>(s: System, w: Worker<O>, id: JobId)
    requires Shows(s, w) && Enabled(s, Insert(id))
    ensures
      var inserted := Do(s, Insert(id));
      Enabled(inserted, Register(id)) && Shows(Do(inserted, Register(id)), Started(w, id))
  {
  }

  /** Two steps at the end of a run: the row is resolved, then the token released. */
  ghost predicate Resolves<O>(s: System, w: Worker<O>, id: JobId, status: Status) {
    && Enabled(s, Resolve(id, status))
    && Enabled(Do(s, Resolve(id, status)), Release(id))
    && Shows(Do(Do(s, Resolve(id, status)), Release(id)), w)
  }

  lemma ClosingIsAPath<O>(s: System, w: Worker<O>, id: JobId, status: Status)
    requires Shows(s, w) && s.up && InPhase(s, id, Working) && IsResolved(status)
    ensures Resolves(s, Closed(w, id, status), id, status)
  {
    var end := Do(Do(s, Resolve(id, status)), Release(id));
    assert end.rows == Statuses(Closed(w, id, status).jobs);
  }

  lemma FinishingIsAPath<O>(s: System, w: Worker<O>, id: JobId, output: O, logs: seq<Log>)
    requires Shows(s, w) && s.up && InPhase(s, id, Working)
    ensures Resolves(s, Finished(w, id, output, logs), id, Completed)
  {
    var end := Do(Do(s, Resolve(id, Completed)), Release(id));
    assert end.rows == Statuses(Finished(w, id, output, logs).jobs);
  }

  /** Whatever `run_job` does in the end, it is resolving and releasing, or giving up. */
  lemma RunEndsOnAPath<O>(
    s: System, w: Worker<O>, id: JobId, job: Job<O>, update: (O, O) -> O, default: O,
    cancelled: nat -> bool, writes: Writes
  )
    requires Shows(s, w) && s.up && InPhase(s, id, Working)
    ensures
      var after := AfterRun(w, id, job, update, default, cancelled, writes);
      || (exists status :: Resolves(s, after, id, status))
      || (Enabled(s, GiveUp(id)) && Shows(Do(s, GiveUp(id)), after))
  {
    ClosingIsAPath(s, w, id, Failed);
    ClosingIsAPath(s, w, id, Cancelled);
    match EndingOf(job, cancelled)
    case RanToEnd(order) =>
      var start := job.init.value;
      FinishingIsAPath(s, w, id, Folded(update, if start.output.Some? then start.output.value else default, order),
                       AllLogs(start.logs, order));
    case _ =>
  }

  /** `cancel_islanded_jobs` is what a boot does to the rows. */
  lemma RecoveryIsTheBoot<O>(s: System, w: Worker<O>)
    requires Shows(s, w) && !s.up
    ensures Do(s, Boot).rows == Statuses(Recovered(w.jobs))
  {
  }
}
