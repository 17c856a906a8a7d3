/**
 One download from end to end: the body is streamed to a partial file in the staging directory
 and that file is put in its place.
*/
module Download {
  import opened Wrappers
  import opened Placement
  import opened DownloadStream
  import DownloadQueue

  datatype Failure = NotResolved | Streaming(error: StreamError) | Placing(message: string)

  function Partial(id: nat, staging: string, filename: string): Path {
    Path(staging, PartialName(id, filename))
  }

  /** What the plugin, the transfer, the database and the file system answer. `resolved` is whether
      there is something to fetch and a staging directory to put it in. */
  datatype Source = Source(
    resolved: bool, sourceOk: bool, createOk: bool, turns: seq<Turn>, cancelledAtEnd: bool, flushOk: bool,
    cleaned: bool, seriesDir: Result<Option<string>, string>, isDir: bool, place: Outcomes
  ) {
    /** The whole body arrives and is written. */
    predicate IsComplete() {
      && resolved && sourceOk && createOk
      && GoesWell(turns, |turns|) && |Received(turns)| <= MAX_DOWNLOAD_BYTES
      && !cancelledAtEnd && flushOk
    }

    /** Why `stream_to_file` gives up, if it does. */
    function StreamEnd(): Option<StreamError> {
      if !sourceOk then Some(SourceFailed)
      else if !createOk then Some(CannotCreate)
      else if FirstStop(turns, 0).Some? then FirstStop(turns, 0)
      else if cancelledAtEnd then Some(WasCancelled)
      else if !flushOk then Some(FlushFailed)
      else None
    }

    /** The body is put in its place. */
    predicate IsPlaced() {
      seriesDir.Ok? && (place.rename || (place.copy && place.renameStaged))
    }

    /** Where the download is to end up. */
    function Destination(staging: string, filename: string): Path {
      Path(if seriesDir.Ok? && seriesDir.value.Some? && isDir then seriesDir.value.value else staging, filename)
    }
  }

  lemma CompleteIff(source: Source)
    ensures source.IsComplete() <==> source.resolved && source.StreamEnd().None?
  {
    assert source.turns[..|source.turns|] == source.turns;
    SmoothIff(source.turns, |source.turns|);
  }

  /** The first problem from turn `i` on. */
  function FirstStop(turns: seq<Turn>, i: nat): (r: Option<StreamError>)
    requires i <= |turns|
    ensures r.None? <==> forall k :: i <= k < |turns| ==> Problem(turns, k).None?
    decreases |turns| - i
  {
    if i == |turns| then None
    else if Problem(turns, i).Some? then Problem(turns, i)
    else FirstStop(turns, i + 1)
  }

  lemma {:induction false} FirstStopIs(turns: seq<Turn>, i: nat, k: nat, error: StreamError)
    requires i <= k && FirstProblem(turns, k, error)
    ensures FirstStop(turns, i) == Some(error)
    decreases k - i
  {
    if i < k {
      assert Problem(turns, i).None?;
      FirstStopIs(turns, i + 1, k, error);
    }
  }

  /** The states of the disk while the partial file is created and grows, turn by turn. */
  function StreamStates(files: Files, partial: Path, snapshots: seq<Snapshot>): (r: seq<Files>)
    ensures |r| == |snapshots| + 1
    ensures forall i :: 0 <= i < |r| ==> r[i] == With(files, partial, if i == 0 then [] else snapshots[i - 1].file)
  {
    if snapshots == [] then [With(files, partial, [])]
    else
      var n := |snapshots| - 1;
      StreamStates(files, partial, snapshots[..n]) + [With(files, partial, snapshots[n].file)]
  }

  method WritePartial(disk: Disk, partial: Path, snapshots: seq<Snapshot>, file: Content)
    requires disk.Valid()
    modifies disk
    ensures disk.Valid()
    ensures disk.history ==
      old(disk.history) + StreamStates(old(disk.Now()), partial, snapshots) + [With(old(disk.Now()), partial, file)]
  {
    ghost var (files, start) := (disk.Now(), disk.history);
    disk.Write(partial, []);
    assert disk.history == start + StreamStates(files, partial, snapshots[..0]);
    for i := 0 to |snapshots|
      invariant disk.Valid() && disk.history == start + StreamStates(files, partial, snapshots[..i])
    {
      StreamNext(start, files, partial, snapshots, i);
      disk.Write(partial, snapshots[i].file);
    }
    assert snapshots[..|snapshots|] == snapshots;
    StreamLast(files, partial, snapshots, file);
    disk.Write(partial, file);
  }

  lemma StreamLast(files: Files, partial: Path, snapshots: seq<Snapshot>, next: Content)
    ensures
      var states := StreamStates(files, partial, snapshots);
      With(states[|states| - 1], partial, next) == With(files, partial, next)
  {
    WithTwice(files, partial, if snapshots == [] then [] else snapshots[|snapshots| - 1].file, next);
  }

  lemma StreamNext(start: seq<Files>, files: Files, partial: Path, snapshots: seq<Snapshot>, i: nat)
    requires i < |snapshots|
    ensures
      var states := start + StreamStates(files, partial, snapshots[..i]);
      start + StreamStates(files, partial, snapshots[..i + 1])
        == states + [With(states[|states| - 1], partial, snapshots[i].file)]
  {
    assert snapshots[..i + 1][..i] == snapshots[..i];
    StreamLast(files, partial, snapshots[..i], snapshots[i].file);
  }

  /** The states of the disk while the body is fetched, given what the transfer made of its file. */
  function FetchStates(
    files: Files, partial: Path, source: Source, snapshots: seq<Snapshot>, file: Content
  ): seq<Files>
  {
    var streamed := With(files, partial, file);
    if !source.resolved then []
    else if source.IsComplete() then StreamStates(files, partial, snapshots) + [streamed]
    else if source.sourceOk && source.createOk then
      StreamStates(files, partial, snapshots) + [streamed] + [Cleaned(streamed, partial, source)]
    else [Cleaned(files, partial, source)]
  }

  /** The states of the disk from the first byte to the last call. */
  function DownloadStates(
    files: Files, partial: Path, to: Path, source: Source, snapshots: seq<Snapshot>, file: Content
  ): seq<Files>
  {
    var fetched := FetchStates(files, partial, source, snapshots, file);
    if source.IsComplete() && source.seriesDir.Ok?
    then fetched + MoveStates(With(files, partial, file), partial, to, source.place)
    else fetched
  }

  /** The removal of a failed download is left to a background task, which may fail. */
  function Cleaned(files: Files, partial: Path, source: Source): Files {
    if source.cleaned then Without(files, partial) else files
  }

  lemma AppendTwice(a: seq<Files>, b: seq<Files>, c: seq<Files>)
    ensures a + b + c == a + (b + c)
  {
  }

  /** A transfer has followed these turns. */
  ghost predicate Follows(snapshots: seq<Snapshot>, file: Content, source: Source) {
    && |snapshots| <= |source.turns|
    && (forall i :: 0 <= i < |snapshots| ==> snapshots[i].file == Received(source.turns[..i + 1]))
    && (source.IsComplete() ==> file == Received(source.turns) && |snapshots| == |source.turns|)
  }

  /** What the disk sees of a transfer: the partial file, removed again if the transfer fails. */
  method Save(disk: Disk, partial: Path, source: Source, snapshots: seq<Snapshot>, file: Content)
    requires disk.Valid() && source.resolved
    modifies disk
    ensures disk.Valid()
    ensures disk.history == old(disk.history) + FetchStates(old(disk.Now()), partial, source, snapshots, file)
    ensures source.IsComplete() ==> disk.Now() == With(old(disk.Now()), partial, file)
  {
    if source.sourceOk && source.createOk {
      WritePartial(disk, partial, snapshots, file);
    }
    if !source.IsComplete() {
      disk.Remove(partial, source.cleaned);
    }
  }

  /** The body is streamed to the partial file. */
  method Fetch(disk: Disk, transfer: Transfer, partial: Path, source: Source) returns (r: Result<nat, StreamError>)
    requires disk.Valid() && source.resolved && transfer.file == [] && transfer.history == []
    modifies disk, transfer
    ensures disk.Valid() && Follows(transfer.history, transfer.file, source)
    ensures disk.history ==
      old(disk.history) + FetchStates(old(disk.Now()), partial, source, transfer.history, transfer.file)
    ensures r.Ok? <==> source.IsComplete()
    ensures r.Err? ==> source.StreamEnd() == Some(r.error)
    ensures r.Ok? ==> r.value == |transfer.file| && disk.Now() == With(old(disk.Now()), partial, transfer.file)
  {
    r := transfer.StreamToFile(
      source.sourceOk, source.createOk, source.turns, source.cancelledAtEnd, source.flushOk);
    CompleteIff(source);
    if r.Err? && source.sourceOk && source.createOk && !Smooth(source.turns, |source.turns|) {
      FirstStopIs(source.turns, 0, |transfer.history|, r.error);
    }
    assert Follows(transfer.history, transfer.file, source);
    Save(disk, partial, source, transfer.history, transfer.file);
  }

  /**
   The part of `download_one` that touches files. Success means that the destination holds the
   whole body, byte for byte.
  */
  method FetchAndPlace(
    disk: Disk, transfer: Transfer, id: nat, staging: string, filename: string, source: Source
  )
    returns (r: Result<nat, Failure>, destination: Path)
    requires disk.Valid() && transfer.file == [] && transfer.history == []
    modifies disk, transfer
    ensures disk.Valid() && destination == source.Destination(staging, filename)
    ensures source.resolved ==> Follows(transfer.history, transfer.file, source)
    ensures disk.history == old(disk.history) +
      DownloadStates(old(disk.Now()), Partial(id, staging, filename), destination, source, transfer.history, transfer.file)
    ensures r.Ok? <==> source.IsComplete() && source.IsPlaced()
    ensures forall markOk :: FetchOf(r, markOk) == Outcome(source, markOk)
    ensures r.Ok? ==>
      && r.value == |Received(source.turns)|
      && destination in disk.Now() && disk.Now()[destination] == Received(source.turns)
  {
    CompleteIff(source);
    destination := source.Destination(staging, filename);
    if !source.resolved {
      return Err(NotResolved), destination;
    }
    var partial := Partial(id, staging, filename);
    var written := Fetch(disk, transfer, partial, source);
    if written.Err? {
      return Err(Streaming(written.error)), destination;
    }
    ghost var files := disk.Now();
    var placed := disk.PlaceFile(id, staging, filename, source.seriesDir, source.isDir, source.place);
    AppendTwice(old(disk.history), FetchStates(old(disk.Now()), partial, source, transfer.history, transfer.file),
                if source.seriesDir.Ok? then MoveStates(files, partial, destination, source.place) else []);
    r := if placed.Ok? then Ok(written.value) else Err(Placing(placed.error));
  }

  /** What the queue sees of a download. */
  function FetchOf(r: Result<nat, Failure>, markOk: bool): DownloadQueue.Fetch {
    if r.Ok? then DownloadQueue.Placed(r.value)
    else if r.error == Streaming(WasCancelled) then DownloadQueue.CancelledMidTransfer(markOk)
    else DownloadQueue.Broke
  }

  /** The same, from what the download meets. */
  function Outcome(source: Source, markOk: bool): DownloadQueue.Fetch {
    if source.IsComplete() && source.IsPlaced() then DownloadQueue.Placed(|Received(source.turns)|)
    else if source.resolved && source.StreamEnd() == Some(WasCancelled) then DownloadQueue.CancelledMidTransfer(markOk)
    else DownloadQueue.Broke
  }

  /** A cancel is the first thing to go wrong: before some turn, or at the end. */
  ghost predicate CancelComesFirst(source: Source) {
    && source.resolved && source.sourceOk && source.createOk
    && exists k :: CancelledAt(source, k)
  }

  predicate CancelledAt(source: Source, k: nat) {
    && k <= |source.turns| && GoesWell(source.turns, k) && |Received(source.turns[..k])| <= MAX_DOWNLOAD_BYTES
    && if k < |source.turns| then source.turns[k].cancelled else source.cancelledAtEnd
  }

  /** The queue is told of a cancelled transfer exactly when a cancel comes first, and of a placed one
      exactly when the body is complete and placed. */
  lemma OutcomeIs(source: Source, markOk: bool)
    ensures Outcome(source, markOk) == DownloadQueue.CancelledMidTransfer(markOk) <==> CancelComesFirst(source)
    ensures Outcome(source, markOk).Placed? <==> source.IsComplete() && source.IsPlaced()
  {
    var turns := source.turns;
    CompleteIff(source);
    if k: nat :| CancelledAt(source, k) {
      SmoothIff(turns, k);
      if k < |turns| {
        FirstStopIs(turns, 0, k, WasCancelled);
      }
    }
    if source.resolved && source.StreamEnd() == Some(WasCancelled) {
      var k := CancelledTurn(source, 0);
    }
  }

  lemma {:induction false} CancelledTurn(source: Source, i: nat) returns (k: nat)
    requires i <= |source.turns| && Smooth(source.turns, i)
    requires FirstStop(source.turns, i) == Some(WasCancelled) || (FirstStop(source.turns, i).None? && source.cancelledAtEnd)
    ensures CancelledAt(source, k)
    decreases |source.turns| - i
  {
    SmoothIff(source.turns, i);
    if i == |source.turns| || Problem(source.turns, i).Some? {
      k := i;
    } else {
      k := CancelledTurn(source, i + 1);
    }
  }

  /**
   A task of the queue and the download it makes, together. The task counts as completed exactly
   when the row was still Approved, both updates found it, and the whole body was put in place;
   then the row is Completed, shows the size of the body, and the body is at its destination.
  */
  lemma CompletedRowHasItsFile(
    id: nat, env: DownloadQueue.TaskEnv, initial: DownloadQueue.Rows, source: Source, markOk: bool,
    staging: string, filename: string, files: Files, snapshots: seq<Snapshot>, file: Content
  )
    requires env.readOk && env.fetch == Outcome(source, markOk)
    requires source.resolved ==> Follows(snapshots, file, source)
    ensures DownloadQueue.TaskOutput(id, env).completed == 1 <==>
      && DownloadQueue.StillApproved(id, env)
      && DownloadQueue.Writable(env.atMark, id, env.markOk)
      && source.IsComplete() && source.IsPlaced()
      && DownloadQueue.Writable(env.atComplete, id, env.completeOk)
    ensures DownloadQueue.TaskOutput(id, env).completed == 1 ==>
      var body := Received(source.turns);
      var rows := DownloadQueue.RowsIn(initial, DownloadQueue.TaskTrace(id, env));
      var to := source.Destination(staging, filename);
      var states := DownloadStates(files, Partial(id, staging, filename), to, source, snapshots, file);
      && DownloadQueue.TaskOutput(id, env).bytes == |body|
      && id in rows && rows[id] == DownloadQueue.Row(DownloadQueue.Completed, |body|)
      && to in states[|states| - 1] && states[|states| - 1][to] == body
  {
    if DownloadQueue.TaskOutput(id, env).completed == 1 {
      CompletedRow(id, env, initial);
      PlacedFile(id, staging, filename, files, source, snapshots, file);
    }
  }

  lemma CompletedRow(id: nat, env: DownloadQueue.TaskEnv, initial: DownloadQueue.Rows)
    requires env.readOk && DownloadQueue.TaskOutput(id, env).completed == 1
    ensures
      var rows := DownloadQueue.RowsIn(initial, DownloadQueue.TaskTrace(id, env));
      env.fetch.Placed? && id in rows && rows[id] == DownloadQueue.Row(DownloadQueue.Completed, env.fetch.bytes)
  {
  }

  lemma PlacedFile(
    id: nat, staging: string, filename: string, files: Files, source: Source, snapshots: seq<Snapshot>, file: Content
  )
    requires source.IsComplete() && source.IsPlaced()
    ensures
      var to := source.Destination(staging, filename);
      var states := DownloadStates(files, Partial(id, staging, filename), to, source, snapshots, file);
      to in states[|states| - 1] && states[|states| - 1][to] == file
  {
    var (partial, to) := (Partial(id, staging, filename), source.Destination(staging, filename));
    NamesDiffer(id, filename);
    MoveEnds(With(files, partial, file), partial, to, source.place);
    LastOfMove(files, partial, to, source, snapshots, file);
  }

  lemma LastOfMove(
    files: Files, partial: Path, to: Path, source: Source, snapshots: seq<Snapshot>, file: Content
  )
    requires source.IsComplete() && source.seriesDir.Ok?
    ensures
      var states := DownloadStates(files, partial, to, source, snapshots, file);
      var moved := MoveStates(With(files, partial, file), partial, to, source.place);
      states[|states| - 1] == moved[|moved| - 1]
  {
  }

  /** At no crash point, and for nobody who looks, does the destination hold anything but its
      old content or the whole body. */
  lemma DestinationIsNeverHalf(
    files: Files, partial: Path, to: Path, source: Source, snapshots: seq<Snapshot>, file: Content, i: nat
  )
    requires partial != to && partial != Incoming(to)
    requires i < |DownloadStates(files, partial, to, source, snapshots, file)|
    ensures
      var now := DownloadStates(files, partial, to, source, snapshots, file)[i];
      SameAt(now, files, to) || (source.IsComplete() && to in now && now[to] == file)
  {
    if i > |snapshots| + 1 && source.IsComplete() && source.seriesDir.Ok? {
      MoveIsSafe(With(files, partial, file), partial, to, source.place);
    }
  }

  /** A download that could not be placed leaves the destination as it was and its partial
      whole; one that could not be streamed leaves the destination as it was. */
  lemma FailedDownloadKeepsTheDestination(
    files: Files, partial: Path, to: Path, source: Source, snapshots: seq<Snapshot>, file: Content
  )
    requires partial != to && partial != Incoming(to) && source.resolved
    requires !(source.IsComplete() && source.IsPlaced())
    ensures
      var states := DownloadStates(files, partial, to, source, snapshots, file);
      var end := states[|states| - 1];
      && SameAt(end, files, to)
      && (source.IsComplete() ==> partial in end && end[partial] == file)
  {
    if source.IsComplete() && source.seriesDir.Ok? {
      LastOfMove(files, partial, to, source, snapshots, file);
      MoveEnds(With(files, partial, file), partial, to, source.place);
      NotIncoming(to);
    }
  }
}
