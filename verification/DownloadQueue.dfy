/**
 The job that drains the approved part of the download queue, while other requests edit the
 queue's rows at any moment. What the rows have become by each of the job's statements is an
 input, like every answer of the database and the network. The queue is the history of those
 statements, with the rows before and after each.
*/
module DownloadQueue {
  import opened Wrappers

  /** `Unknown` is any text this build does not recognise. */
  datatype Status = Pending | Approved | Downloading | Completed | Failed | Cancelled | Unknown

  datatype Row = Row(status: Status, progressBytes: nat)

  type Rows = map<nat, Row>

  datatype Output = Output(completed: nat, failed: nat, bytes: nat)

  /** `DownloadQueueOutput::update`. */
  function Updated(a: Output, b: Output): Output {
    Output(a.completed + b.completed, a.failed + b.failed, a.bytes + b.bytes)
  }

  const NOTHING: Output := Output(0, 0, 0)

  /** How resolving, streaming and placing one file turns out. */
  datatype Fetch =
    | Placed(bytes: nat)
    | Broke
    | CancelledMidTransfer(markOk: bool)

  /**
   What one task meets: whether the job's token is found cancelled before it, and for each of its
   statements the rows as other requests have left them by then and whether the database answers.
  */
  datatype TaskEnv = TaskEnv(
    cancelled: bool,
    atRead: Rows, readOk: bool,
    atMark: Rows, markOk: bool,
    fetch: Fetch, atCancel: Rows,
    atComplete: Rows, completeOk: bool,
    atFail: Rows, markFailedOk: bool
  )

  /** What the job does, with the rows before and after each of its statements. */
  datatype Entry =
    | Listed(rows: Rows)
    | Reread(id: nat, rows: Rows)
    | Update(before: Rows, after: Rows)
    | Transfer(id: nat)

  // --------------------------------------------------------------- what a task amounts to

  function StatusIn(rows: Rows, id: nat): Option<Status> {
    if id in rows then Some(rows[id].status) else None
  }

  /** The row is still Approved when the job re-reads it. */
  predicate StillApproved(id: nat, env: TaskEnv) {
    StatusIn(env.atRead, id) == Some(Approved)
  }

  /** `mark`: fails on a database error and on a row that is gone. */
  predicate Writable(rows: Rows, id: nat, dbOk: bool) {
    dbOk && id in rows
  }

  function Marked(rows: Rows, id: nat, status: Status, dbOk: bool): Rows {
    if Writable(rows, id, dbOk) then rows[id := rows[id].(status := status)] else rows
  }

  /** The download of an approved row goes through, and so does every write it needs. */
  predicate Succeeds(id: nat, env: TaskEnv) {
    && Writable(env.atMark, id, env.markOk)
    && env.fetch.Placed?
    && Writable(env.atComplete, id, env.completeOk)
  }

  function TaskOutput(id: nat, env: TaskEnv): Output {
    if !StillApproved(id, env) then NOTHING
    else if Succeeds(id, env) then Output(1, 0, env.fetch.bytes)
    else Output(0, 1, 0)
  }

  /** What `download_one` does. */
  function DownloadTrace(id: nat, env: TaskEnv): seq<Entry> {
    [Update(env.atMark, Marked(env.atMark, id, Downloading, env.markOk))] +
    if !Writable(env.atMark, id, env.markOk) then []
    else
      [Transfer(id)] +
      match env.fetch
      case Placed(bytes) => [Update(env.atComplete, Completing(env.atComplete, id, bytes, env.completeOk))]
      case Broke => []
      case CancelledMidTransfer(markOk) => [Update(env.atCancel, Marked(env.atCancel, id, Cancelled, markOk))]
  }

  /** The update that ends a download. */
  function Completing(rows: Rows, id: nat, bytes: nat, dbOk: bool): Rows {
    if Writable(rows, id, dbOk) then rows[id := Row(Completed, bytes)] else rows
  }

  /** What `execute_task` does. */
  function TaskTrace(id: nat, env: TaskEnv): seq<Entry> {
    [Reread(id, env.atRead)] +
    if !env.readOk || !StillApproved(id, env) then []
    else
      DownloadTrace(id, env) +
      if Succeeds(id, env) then [] else [Update(env.atFail, Marked(env.atFail, id, Failed, env.markFailedOk))]
  }

  /** The rows as the last statement leaves them. */
  function RowsIn(initial: Rows, history: seq<Entry>): Rows {
    if history == [] then initial
    else
      match history[|history| - 1]
      case Listed(rows) => rows
      case Reread(_, rows) => rows
      case Update(_, after) => after
      case Transfer(_) => RowsIn(initial, history[..|history| - 1])
  }

  /** The outputs of tasks, added up. */
  function Total(tasks: seq<nat>, env: nat -> TaskEnv): Output {
    if tasks == [] then NOTHING
    else
      var n := |tasks| - 1;
      Updated(Total(tasks[..n], env), TaskOutput(tasks[n], env(tasks[n])))
  }

  function Trace(tasks: seq<nat>, env: nat -> TaskEnv): seq<Entry> {
    if tasks == [] then []
    else
      var n := |tasks| - 1;
      Trace(tasks[..n], env) + TaskTrace(tasks[n], env(tasks[n]))
  }

  /** Nothing ends the run at this task. */
  predicate Proceeds(env: TaskEnv) {
    !env.cancelled && env.readOk
  }

  /** How many of the tasks a run gets through. */
  function Reached(tasks: seq<nat>, env: nat -> TaskEnv, i: nat): (n: nat)
    requires i <= |tasks|
    ensures i <= n <= |tasks|
    ensures forall k :: i <= k < n ==> Proceeds(env(tasks[k]))
    ensures n < |tasks| ==> !Proceeds(env(tasks[n]))
    decreases |tasks| - i
  {
    if i == |tasks| || !Proceeds(env(tasks[i])) then i else Reached(tasks, env, i + 1)
  }

  /** What a whole run does: its tasks up to the one that ends it, and the failed re-read if that
      is what did. */
  function RunTrace(tasks: seq<nat>, env: nat -> TaskEnv): seq<Entry> {
    var n := Reached(tasks, env, 0);
    Trace(tasks[..n], env) +
    if n < |tasks| && !env(tasks[n]).cancelled then [Reread(tasks[n], env(tasks[n]).atRead)] else []
  }

  // --------------------------------------------------------------------------- the code

  class Queue {
    const initial: Rows
    var history: seq<Entry>

    constructor (initial: Rows)
      ensures this.initial == initial && history == []
    {
      this.initial, this.history := initial, [];
    }

    function Now(): Rows
      reads this
    {
      RowsIn(initial, history)
    }

    /** `mark`, on the rows as they are by now. */
    method Mark(now: Rows, id: nat, status: Status, dbOk: bool) returns (ok: bool)
      modifies this
      ensures ok == Writable(now, id, dbOk)
      ensures history == old(history) + [Update(now, Marked(now, id, status, dbOk))]
      ensures Now() == Marked(now, id, status, dbOk)
    {
      ok := dbOk && id in now;
      history := history + [Update(now, if ok then now[id := now[id].(status := status)] else now)];
    }

    /** `download_one`. */
    method DownloadOne(id: nat, env: TaskEnv) returns (r: Result<nat, ()>)
      modifies this
      ensures history == old(history) + DownloadTrace(id, env)
      ensures r.Ok? <==> Succeeds(id, env)
      ensures r.Ok? ==> r.value == env.fetch.bytes && id in Now() && Now()[id] == Row(Completed, r.value)
    {
      var ok := Mark(env.atMark, id, Downloading, env.markOk);
      if !ok {
        return Err(());
      }
      history := history + [Transfer(id)];
      match env.fetch
      case CancelledMidTransfer(markOk) =>
        ok := Mark(env.atCancel, id, Cancelled, markOk);
        r := Err(());
      case Broke =>
        r := Err(());
      case Placed(bytes) =>
        ok := env.completeOk && id in env.atComplete;
        var after := if ok then env.atComplete[id := Row(Completed, bytes)] else env.atComplete;
        history := history + [Update(env.atComplete, after)];
        r := if ok then Ok(bytes) else Err(());
    }

    /** `execute_task`. The row is re-read first, and left alone unless it is Approved. */
    method ExecuteTask(id: nat, env: TaskEnv) returns (r: Result<Output, ()>)
      modifies this
      ensures history == old(history) + TaskTrace(id, env)
      ensures r == if env.readOk then Ok(TaskOutput(id, env)) else Err(())
    {
      history := history + [Reread(id, env.atRead)];
      if !env.readOk {
        return Err(());
      }
      if !(id in env.atRead && env.atRead[id].status == Approved) {
        return Ok(NOTHING);
      }
      var bytes := DownloadOne(id, env);
      if bytes.Ok? {
        return Ok(Output(1, 0, bytes.value));
      }
      var marked := Mark(env.atFail, id, Failed, env.markFailedOk);
      r := Ok(Output(0, 1, 0));
    }

    /** `init`: the ids of the rows that are Approved now, in some order, each once. */
    method Init(now: Rows) returns (tasks: seq<nat>)
      modifies this
      ensures history == old(history) + [Listed(now)]
      ensures forall id :: id in tasks <==> id in ApprovedRows(now)
      ensures AllDifferent(tasks)
    {
      history := history + [Listed(now)];
      tasks := [];
      var left := now.Keys;
      while left != {}
        invariant left <= now.Keys && history == old(history) + [Listed(now)]
        invariant forall id :: id in tasks <==> id in now && id !in left && now[id].status == Approved
        invariant AllDifferent(tasks)
        decreases |left|
      {
        var id :| id in left;
        left := left - {id};
        if now[id].status == Approved {
          tasks := tasks + [id];
        }
      }
    }

    /** The tasks in turn, their outputs added up; a cancelled job and a failed re-read end the
        run. */
    method RunTasks(tasks: seq<nat>, env: nat -> TaskEnv) returns (total: Output, done: nat)
      modifies this
      ensures done == Reached(tasks, env, 0)
      ensures total == Total(tasks[..done], env)
      ensures history == old(history) + RunTrace(tasks, env)
    {
      total := NOTHING;
      for i := 0 to |tasks|
        invariant Reached(tasks, env, 0) == Reached(tasks, env, i)
        invariant total == Total(tasks[..i], env)
        invariant history == old(history) + Trace(tasks[..i], env)
      {
        if env(tasks[i]).cancelled {
          return total, i;
        }
        NextTask(old(history), tasks, env, i);
        var r := ExecuteTask(tasks[i], env(tasks[i]));
        if r.Err? {
          return total, i;
        }
        total := Updated(total, r.value);
      }
      done := |tasks|;
    }

    /** One drain: the rows Approved at its start are its tasks. */
    method Drain(now: Rows, env: nat -> TaskEnv) returns (tasks: seq<nat>, total: Output, done: nat)
      modifies this
      ensures AllDifferent(tasks) && forall id :: id in tasks <==> id in ApprovedRows(now)
      ensures done == Reached(tasks, env, 0) <= |tasks|
      ensures forall k :: 0 <= k < done ==> !env(tasks[k]).cancelled && env(tasks[k]).readOk
      ensures done < |tasks| ==> env(tasks[done]).cancelled || !env(tasks[done]).readOk
      ensures total == Total(tasks[..done], env)
      ensures history == old(history) + [Listed(now)] + RunTrace(tasks, env)
    {
      tasks := Init(now);
      total, done := RunTasks(tasks, env);
      ReachedIs(tasks, env);
    }
  }

  ghost function ApprovedRows(rows: Rows): set<nat> {
    set id | id in rows && rows[id].status == Approved
  }

  ghost predicate AllDifferent(tasks: seq<nat>) {
    forall m, n :: 0 <= m < n < |tasks| ==> tasks[m] != tasks[n]
  }

  lemma ReachedIs(tasks: seq<nat>, env: nat -> TaskEnv)
    ensures
      var done := Reached(tasks, env, 0);
      && (forall k :: 0 <= k < done ==> !env(tasks[k]).cancelled && env(tasks[k]).readOk)
      && (done < |tasks| ==> env(tasks[done]).cancelled || !env(tasks[done]).readOk)
  {
    forall k | 0 <= k < Reached(tasks, env, 0) ensures !env(tasks[k]).cancelled && env(tasks[k]).readOk {
      assert Proceeds(env(tasks[k]));
    }
  }

  lemma NextTask(start: seq<Entry>, tasks: seq<nat>, env: nat -> TaskEnv, i: nat)
    requires i < |tasks|
    ensures Total(tasks[..i + 1], env) == Updated(Total(tasks[..i], env), TaskOutput(tasks[i], env(tasks[i])))
    ensures start + Trace(tasks[..i + 1], env) == start + Trace(tasks[..i], env) + TaskTrace(tasks[i], env(tasks[i]))
    ensures start + (Trace(tasks[..i], env) + TaskTrace(tasks[i], env(tasks[i])))
            == start + Trace(tasks[..i], env) + TaskTrace(tasks[i], env(tasks[i]))
  {
    assert tasks[..i + 1][..i] == tasks[..i];
  }

  // ------------------------------------------------------------------ what a drain keeps

  ghost predicate IsApprovedIn(rows: Rows, id: nat) {
    id in rows && rows[id].status == Approved
  }

  ghost function Approvals(tasks: seq<nat>, env: nat -> TaskEnv): set<nat> {
    set id | id in tasks && IsApprovedIn(env(id).atRead, id)
  }

  ghost function Successes(tasks: seq<nat>, env: nat -> TaskEnv): set<nat> {
    set id |
      && id in tasks && IsApprovedIn(env(id).atRead, id)
      && env(id).markOk && id in env(id).atMark
      && env(id).fetch.Placed?
      && env(id).completeOk && id in env(id).atComplete
  }

  /** The sizes of the files fetched for these rows. */
  ghost function SizeOf(ids: set<nat>, env: nat -> TaskEnv): nat {
    if ids == {} then 0
    else
      var id :| id in ids;
      Size(env(id)) + SizeOf(ids - {id}, env)
  }

  function Size(env: TaskEnv): nat {
    if env.fetch.Placed? then env.fetch.bytes else 0
  }

  lemma {:induction false} SizeOfOneMore(ids: set<nat>, id: nat, env: nat -> TaskEnv)
    requires id !in ids
    ensures SizeOf(ids + {id}, env) == SizeOf(ids, env) + Size(env(id))
    decreases |ids|
  {
    var all := ids + {id};
    var first :| first in all && SizeOf(all, env) == Size(env(first)) + SizeOf(all - {first}, env);
    if first == id {
      assert all - {first} == ids;
    } else {
      SizeOfOneMore(ids - {first}, id, env);
      assert all - {first} == (ids - {first}) + {id};
      SizeOfOneMore(ids - {first}, first, env);
      assert (ids - {first}) + {first} == ids;
    }
  }

  /**
   The counts are conserved, whatever other requests do to the rows meanwhile: completed and
   failed together are the rows still Approved when the job re-read them, completed those whose
   fetch and writes then went through, and bytes the sizes of their files.
  */
  lemma {:induction false} CountsAreConserved(tasks: seq<nat>, env: nat -> TaskEnv)
    requires AllDifferent(tasks)
    ensures
      var total := Total(tasks, env);
      && total.completed + total.failed == |Approvals(tasks, env)|
      && total.completed == |Successes(tasks, env)|
      && total.bytes == SizeOf(Successes(tasks, env), env)
    decreases |tasks|
  {
    if tasks != [] {
      CountsAreConserved(tasks[..|tasks| - 1], env);
      LastApproval(tasks, env);
      LastSuccess(tasks, env);
    } else {
      assert Approvals(tasks, env) == {} && Successes(tasks, env) == {};
    }
  }

  lemma LastApproval(tasks: seq<nat>, env: nat -> TaskEnv)
    requires AllDifferent(tasks) && tasks != []
    ensures
      var (before, id) := (tasks[..|tasks| - 1], tasks[|tasks| - 1]);
      |Approvals(tasks, env)| == |Approvals(before, env)| + if StillApproved(id, env(id)) then 1 else 0
  {
    var (before, id) := (tasks[..|tasks| - 1], tasks[|tasks| - 1]);
    assert tasks == before + [id];
    assert Approvals(tasks, env) == Approvals(before, env) + if StillApproved(id, env(id)) then {id} else {};
    assert id !in Approvals(before, env);
  }

  lemma LastSuccess(tasks: seq<nat>, env: nat -> TaskEnv)
    requires AllDifferent(tasks) && tasks != []
    ensures
      var (before, id) := (tasks[..|tasks| - 1], tasks[|tasks| - 1]);
      var counts := StillApproved(id, env(id)) && Succeeds(id, env(id));
      && |Successes(tasks, env)| == |Successes(before, env)| + (if counts then 1 else 0)
      && SizeOf(Successes(tasks, env), env) == SizeOf(Successes(before, env), env) + (if counts then Size(env(id)) else 0)
  {
    var (before, id) := (tasks[..|tasks| - 1], tasks[|tasks| - 1]);
    var some := if StillApproved(id, env(id)) && Succeeds(id, env(id)) then {id} else {};
    assert tasks == before + [id];
    assert Successes(tasks, env) == Successes(before, env) + some;
    assert id !in Successes(before, env);
    SizeOfOneMore(Successes(before, env), id, env);
  }

  /** This entry of the history changes the row or fetches its file. */
  predicate Touches(e: Entry, id: nat) {
    match e
    case Update(before, after) => StatusIn(before, id) != StatusIn(after, id) || (id in before && before[id] != after[id])
    case Transfer(fetched) => fetched == id
    case _ => false
  }

  /** One task touches one row, and only after it has re-read it and found it Approved. */
  lemma TaskTouchesItsRow(task: nat, env: TaskEnv, k: nat, id: nat)
    requires k < |TaskTrace(task, env)| && Touches(TaskTrace(task, env)[k], id)
    ensures k > 0 && id == task && StillApproved(id, env)
    ensures TaskTrace(task, env)[0] == Reread(id, env.atRead)
  {
  }

  /** Before anything is done to a row, that row was re-read and found Approved, and it was one
      of the tasks. */
  lemma {:induction false} TouchedAfterApproval(tasks: seq<nat>, env: nat -> TaskEnv, k: nat, id: nat) returns (j: nat)
    requires k < |Trace(tasks, env)| && Touches(Trace(tasks, env)[k], id)
    ensures j < k && Trace(tasks, env)[j] == Reread(id, env(id).atRead)
    ensures id in tasks && id in env(id).atRead && env(id).atRead[id].status == Approved
    decreases |tasks|
  {
    var n := |tasks| - 1;
    var early := Trace(tasks[..n], env);
    if k < |early| {
      j := TouchedAfterApproval(tasks[..n], env, k, id);
    } else {
      j := |early|;
      TaskTouchesItsRow(tasks[n], env(tasks[n]), k - |early|, id);
    }
  }

  /** A row found cancelled, deleted or changed in any other way at its re-read is the same before
      and after every statement of the run, its file is not fetched, and it counts for nothing. */
  lemma RowsNoLongerApprovedAreLeftAlone(tasks: seq<nat>, env: nat -> TaskEnv, id: nat)
    requires id !in env(id).atRead || env(id).atRead[id].status != Approved
    ensures forall k :: 0 <= k < |RunTrace(tasks, env)| ==> !Touches(RunTrace(tasks, env)[k], id)
    ensures TaskOutput(id, env(id)) == NOTHING
  {
    var n := Reached(tasks, env, 0);
    forall k | 0 <= k < |Trace(tasks[..n], env)| ensures !Touches(Trace(tasks[..n], env)[k], id) {
      if Touches(Trace(tasks[..n], env)[k], id) {
        var j := TouchedAfterApproval(tasks[..n], env, k, id);
      }
    }
  }

  /** An approved row whose transfer is placed is marked Downloading, transferred and Completed with
      its size; or Failed, if that last update finds it gone or is refused. */
  lemma PlacedTransfer(id: nat, env: TaskEnv)
    requires env.readOk && StillApproved(id, env) && env.markOk && id in env.atMark && env.fetch.Placed?
    ensures
      var downloading := Update(env.atMark, env.atMark[id := env.atMark[id].(status := Downloading)]);
      if env.completeOk && id in env.atComplete then
        TaskTrace(id, env) == [Reread(id, env.atRead), downloading, Transfer(id),
                               Update(env.atComplete, env.atComplete[id := Row(Completed, env.fetch.bytes)])]
      else
        TaskTrace(id, env) == [Reread(id, env.atRead), downloading, Transfer(id), Update(env.atComplete, env.atComplete),
                               Update(env.atFail, FailedRow(env.atFail, id, env.markFailedOk))]
  {
  }

  /** An approved row whose transfer breaks, or that cannot be marked to begin with: it is marked Failed
      in the end, if it is still there. */
  lemma BrokenTransfer(id: nat, env: TaskEnv)
    requires env.readOk && StillApproved(id, env)
    ensures env.markOk && id in env.atMark && env.fetch.Broke? ==>
      TaskTrace(id, env) == [
        Reread(id, env.atRead), Update(env.atMark, env.atMark[id := env.atMark[id].(status := Downloading)]),
        Transfer(id), Update(env.atFail, FailedRow(env.atFail, id, env.markFailedOk))]
    ensures !(env.markOk && id in env.atMark) ==>
      TaskTrace(id, env) == [
        Reread(id, env.atRead), Update(env.atMark, env.atMark),
        Update(env.atFail, FailedRow(env.atFail, id, env.markFailedOk))]
  {
  }

  /** The row, if it is there and can be written, has failed. */
  function FailedRow(rows: Rows, id: nat, dbOk: bool): (after: Rows)
    ensures after.Keys == rows.Keys && forall other :: other in rows && other != id ==> after[other] == rows[other]
    ensures id in rows && dbOk ==> after[id] == Row(Failed, rows[id].progressBytes)
    ensures !dbOk ==> after == rows
  {
    Marked(rows, id, Failed, dbOk)
  }

  /**
   A transfer cancelled half-way is marked Downloading, Cancelled and then Failed. It ends Failed
   exactly when the row is still there and that last write goes through, or someone else had made
   it Failed already. If nobody touches it in between, it ends Cancelled exactly when the last
   write fails.
  */
  lemma CancelledTransferEndsFailedIff(id: nat, env: TaskEnv)
    requires env.readOk && StillApproved(id, env)
    requires Writable(env.atMark, id, env.markOk) && env.fetch.CancelledMidTransfer?
    ensures TaskOutput(id, env) == Output(0, 1, 0)
    ensures
      var cancelled := Marked(env.atCancel, id, Cancelled, env.fetch.markOk);
      var end := Marked(env.atFail, id, Failed, env.markFailedOk);
      && TaskTrace(id, env) == [
           Reread(id, env.atRead), Update(env.atMark, Marked(env.atMark, id, Downloading, env.markOk)),
           Transfer(id), Update(env.atCancel, cancelled), Update(env.atFail, end)]
      && (StatusIn(end, id) == Some(Failed) <==>
           id in env.atFail && (env.markFailedOk || env.atFail[id].status == Failed))
      && (Writable(env.atCancel, id, env.fetch.markOk) && env.atFail == cancelled ==>
           (StatusIn(end, id) == Some(Cancelled) <==> !env.markFailedOk))
  {
  }

  /** A transfer cancelled half-way with every write accepted and nobody else around. */
  lemma CancelledTransferEndsFailed(id: nat)
    ensures
      var row := map[id := Row(Approved, 0)];
      var downloading := map[id := Row(Downloading, 0)];
      var cancelled := map[id := Row(Cancelled, 0)];
      var env := TaskEnv(
        false, row, true, row, true, CancelledMidTransfer(true), downloading, downloading, true, cancelled, true);
      RowsIn(row, TaskTrace(id, env)) == map[id := Row(Failed, 0)]
  {
  }
}
