/**
 `stream_to_file`: a body arrives in chunks and is appended to a file, up to a ceiling, with
 progress written back to the queue row about once a megabyte. What the network, the disk
 and the database answer, chunk by chunk, is the input.
*/
module DownloadStream {
  import opened Wrappers
  import opened Placement

  const PROGRESS_UPDATE_BYTES: nat := 1024 * 1024
  const MAX_DOWNLOAD_BYTES: nat := 8 * 1024 * 1024 * 1024

  /** One turn of the loop. `saved` is how much of a chunk reached the disk when its write
      failed; `recordOk` is whether a progress update, if one is due, goes through. */
  datatype Turn = Turn(cancelled: bool, answer: Answer)

  datatype Answer =
    | Chunk(data: Content, writeOk: bool, saved: nat, recordOk: bool)
    | TransferBreaks

  datatype StreamError =
    | SourceFailed | CannotCreate | WasCancelled | TransferFailed | TooLarge | WriteFailed | FlushFailed

  // ------------------------------------------------------------------------- the script

  /** The chunks received in the first turns, one after the other. */
  function Received(turns: seq<Turn>): Content {
    if turns == [] then []
    else
      var last := turns[|turns| - 1].answer;
      Received(turns[..|turns| - 1]) + if last.Chunk? then last.data else []
  }

  /** The turn at which the loop gives up, and why. */
  function Problem(turns: seq<Turn>, k: nat): Option<StreamError>
    requires k < |turns|
  {
    if turns[k].cancelled then Some(WasCancelled)
    else if turns[k].answer.TransferBreaks? then Some(TransferFailed)
    else if |Received(turns[..k + 1])| > MAX_DOWNLOAD_BYTES then Some(TooLarge)
    else if !turns[k].answer.writeOk then Some(WriteFailed)
    else None
  }

  predicate Smooth(turns: seq<Turn>, n: nat)
    requires n <= |turns|
  {
    forall k :: 0 <= k < n ==> Problem(turns, k).None?
  }

  /** Problem-free turns before turn `k`, and a problem there. */
  ghost predicate FirstProblem(turns: seq<Turn>, k: nat, error: StreamError) {
    k < |turns| && Smooth(turns, k) && Problem(turns, k) == Some(error)
  }

  /** Nothing goes wrong in the first turns but, perhaps, their size. */
  predicate GoesWell(turns: seq<Turn>, n: nat)
    requires n <= |turns|
  {
    forall k :: 0 <= k < n ==> !turns[k].cancelled && turns[k].answer.Chunk? && turns[k].answer.writeOk
  }

  /** Turn `k` is the first to go wrong: a chunk arrives that takes the body over the ceiling. */
  predicate Oversteps(turns: seq<Turn>, k: nat) {
    && k < |turns| && GoesWell(turns, k) && |Received(turns[..k])| <= MAX_DOWNLOAD_BYTES
    && !turns[k].cancelled && turns[k].answer.Chunk?
    && |Received(turns[..k])| + |turns[k].answer.data| > MAX_DOWNLOAD_BYTES
  }

  /** The body goes through exactly when nothing goes wrong and it is no larger than the ceiling. */
  lemma {:induction false} SmoothIff(turns: seq<Turn>, n: nat)
    requires n <= |turns|
    ensures Smooth(turns, n) <==> GoesWell(turns, n) && |Received(turns[..n])| <= MAX_DOWNLOAD_BYTES
  {
    if n > 0 {
      SmoothIff(turns, n - 1);
      OneMoreChunk(turns, n - 1);
      assert Smooth(turns, n) <==> Smooth(turns, n - 1) && Problem(turns, n - 1).None?;
      assert GoesWell(turns, n) ==> GoesWell(turns, n - 1);
    }
  }

  /** The size is the first problem exactly when a turn oversteps the ceiling. */
  lemma OverstepsIff(turns: seq<Turn>, k: nat)
    ensures FirstProblem(turns, k, TooLarge) <==> Oversteps(turns, k)
  {
    if k < |turns| {
      SmoothIff(turns, k);
      OneMoreChunk(turns, k);
    }
  }

  lemma OnlyFirstProblem(turns: seq<Turn>, k: nat, error: StreamError, j: nat, other: StreamError)
    requires FirstProblem(turns, k, error) && FirstProblem(turns, j, other)
    ensures k == j && error == other
  {
  }

  /** What the failing turn itself leaves in the file. */
  function Leftover(turn: Turn, error: StreamError): Content {
    if error == WriteFailed && turn.answer.Chunk? then
      turn.answer.data[..if turn.answer.saved <= |turn.answer.data| then turn.answer.saved else |turn.answer.data|]
    else []
  }

  /** A failed write leaves as much of its chunk as was saved, and any other failure nothing. */
  lemma LeftoverIs(turn: Turn, error: StreamError)
    ensures error != WriteFailed ==> Leftover(turn, error) == []
    ensures error == WriteFailed && turn.answer.Chunk? ==>
      && Leftover(turn, error) <= turn.answer.data
      && (turn.answer.saved <= |turn.answer.data| ==> |Leftover(turn, error)| == turn.answer.saved)
      && (turn.answer.saved >= |turn.answer.data| ==> Leftover(turn, error) == turn.answer.data)
  {
  }

  // ------------------------------------------------------------------------- progress

  function Size(turn: Turn): nat {
    if turn.answer.Chunk? then |turn.answer.data| else 0
  }

  /** The bytes of the first `n` turns that no update has been attempted for. */
  function Pending(turns: seq<Turn>, n: nat): (r: nat)
    requires n <= |turns|
    ensures r < PROGRESS_UPDATE_BYTES
    decreases n, 0
  {
    if n == 0 || IsDue(turns, n - 1) then 0 else Pending(turns, n - 1) + Size(turns[n - 1])
  }

  /** Turn `k` fills an update interval. */
  predicate IsDue(turns: seq<Turn>, k: nat)
    requires k < |turns|
    decreases k, 1
  {
    Pending(turns, k) + Size(turns[k]) >= PROGRESS_UPDATE_BYTES
  }

  predicate Accepts(turns: seq<Turn>, k: nat)
    requires k < |turns|
  {
    turns[k].answer.Chunk? && turns[k].answer.recordOk
  }

  /** The latest figure of the first `n` turns that the database has accepted. */
  function Recorded(turns: seq<Turn>, n: nat): Option<nat>
    requires n <= |turns|
  {
    if n == 0 then None
    else if IsDue(turns, n - 1) && Accepts(turns, n - 1) then Some(|Received(turns[..n])|)
    else Recorded(turns, n - 1)
  }

  /** The latest update due in the first `n` turns, if any, has been accepted. */
  predicate LatestUpdateAccepted(turns: seq<Turn>, n: nat)
    requires n <= |turns|
  {
    n == 0 || if IsDue(turns, n - 1) then Accepts(turns, n - 1) else LatestUpdateAccepted(turns, n - 1)
  }

  /** What the row shows after the first `n` turns, given what it showed before the stream. */
  function Shown(before: nat, turns: seq<Turn>, n: nat): nat
    requires n <= |turns|
  {
    Recorded(turns, n).UnwrapOr(before)
  }

  // --------------------------------------------------------------------------- the code

  /** After a turn: the file, and the progress the row shows. */
  datatype Snapshot = Snapshot(file: Content, progress: nat)

  /** After each turn the file is the chunks so far, the row shows the latest figure accepted,
      and that figure is less than one interval behind exactly when the latest update due was
      accepted. */
  ghost predicate IsHistory(history: seq<Snapshot>, before: nat, turns: seq<Turn>) {
    && |history| <= |turns|
    && forall i :: 0 <= i < |history| ==>
         && history[i] == Snapshot(Received(turns[..i + 1]), Shown(before, turns, i + 1))
         && (|history[i].file| - Recorded(turns, i + 1).UnwrapOr(0) < PROGRESS_UPDATE_BYTES
             <==> LatestUpdateAccepted(turns, i + 1))
  }

  lemma OneMoreChunk(turns: seq<Turn>, k: nat)
    requires k < |turns|
    ensures Received(turns[..k + 1])
         == Received(turns[..k]) + if turns[k].answer.Chunk? then turns[k].answer.data else []
    ensures |Received(turns[..k + 1])| == |Received(turns[..k])| + Size(turns[k])
  {
    assert turns[..k + 1][..k] == turns[..k];
  }

  lemma OneMoreSnapshot(history: seq<Snapshot>, before: nat, turns: seq<Turn>, snap: Snapshot)
    requires IsHistory(history, before, turns) && |history| < |turns|
    requires snap == Snapshot(Received(turns[..|history| + 1]), Shown(before, turns, |history| + 1))
    ensures IsHistory(history + [snap], before, turns)
  {
    BehindByLessThanAnIntervalIff(turns, |history| + 1);
  }

  class Transfer {
    var file: Content
    /** The row's `progress_bytes`. */
    var progress: nat
    /** The two after every turn. */
    var history: seq<Snapshot>

    /** A fresh file, and a row that may still show the progress of an earlier attempt. */
    constructor (progress: nat)
      ensures file == [] && this.progress == progress && history == []
    {
      this.file, this.progress, this.history := [], progress, [];
    }

    /** A chunk that has arrived: it is written, and the progress recorded if that is due. */
    method TakeChunk(turns: seq<Turn>, i: nat, written: nat, sinceUpdate: nat)
      returns (r: Result<nat, StreamError>)
      requires i < |turns| && turns[i].answer.Chunk? && !turns[i].cancelled
      requires file == Received(turns[..i]) && written == |Received(turns[..i + 1])|
      requires sinceUpdate == Pending(turns, i) && |file| <= MAX_DOWNLOAD_BYTES
      modifies this`file, this`progress
      ensures |file| <= MAX_DOWNLOAD_BYTES
      ensures r.Ok? <==> written <= MAX_DOWNLOAD_BYTES && turns[i].answer.writeOk
      ensures r.Err? ==> r.error == if written > MAX_DOWNLOAD_BYTES then TooLarge else WriteFailed
      ensures r.Ok? <==> Problem(turns, i).None?
      ensures r.Err? ==>
        Problem(turns, i) == Some(r.error) && progress == old(progress) && file == old(file) + Leftover(turns[i], r.error)
      ensures r.Ok? ==>
        && r.value == Pending(turns, i + 1) && file == Received(turns[..i + 1])
        && progress == if IsDue(turns, i) && Accepts(turns, i) then |file| else old(progress)
    {
      var Chunk(data, writeOk, saved, recordOk) := turns[i].answer;
      OneMoreChunk(turns, i);
      if written > MAX_DOWNLOAD_BYTES {
        return Err(TooLarge);
      }
      if !writeOk {
        file := file + data[..if saved <= |data| then saved else |data|];
        return Err(WriteFailed);
      }
      file := file + data;

      if sinceUpdate + |data| >= PROGRESS_UPDATE_BYTES {
        if recordOk {
          progress := written;
        }
        return Ok(0);
      }
      r := Ok(sinceUpdate + |data|);
    }

    /**
     `stream_to_file`. It succeeds exactly when the source opens, the file is created, every turn
     goes well, the chunks together are no larger than the ceiling, and the end is neither cancelled
     nor fails to flush.
    */
    method StreamToFile(sourceOk: bool, createOk: bool, turns: seq<Turn>, cancelledAtEnd: bool, flushOk: bool)
      returns (r: Result<nat, StreamError>)
      requires file == [] && history == []
      modifies this
      ensures IsHistory(history, old(progress), turns) && progress == Shown(old(progress), turns, |history|)
      ensures |file| <= MAX_DOWNLOAD_BYTES
      ensures r.Ok? <==>
        && sourceOk && createOk
        && GoesWell(turns, |turns|) && |Received(turns)| <= MAX_DOWNLOAD_BYTES
        && !cancelledAtEnd && flushOk
      ensures r == Err(TooLarge) <==> sourceOk && createOk && exists k :: Oversteps(turns, k)
      ensures r.Ok? ==> file == Received(turns) && r.value == |file| && |history| == |turns|
      ensures r.Err? && sourceOk && createOk && !Smooth(turns, |turns|) ==>
        && FirstProblem(turns, |history|, r.error)
        && file == Received(turns[..|history|]) + Leftover(turns[|history|], r.error)
      ensures r.Err? && sourceOk && createOk && Smooth(turns, |turns|) ==>
        && r.error == (if cancelledAtEnd then WasCancelled else FlushFailed)
        && file == Received(turns) && |history| == |turns|
      ensures !sourceOk ==> r == Err(SourceFailed) && history == []
      ensures sourceOk && !createOk ==> r == Err(CannotCreate) && history == []
    {
      r := Stream(sourceOk, createOk, turns, cancelledAtEnd, flushOk);
      assert turns[..|turns|] == turns;
      SmoothIff(turns, |turns|);
      if k: nat :| Oversteps(turns, k) {
        OverstepsIff(turns, k);
        if r.Err? && sourceOk && createOk {
          OnlyFirstProblem(turns, k, TooLarge, |history|, r.error);
        }
      }
      OverstepsIff(turns, |history|);
    }

    method Stream(sourceOk: bool, createOk: bool, turns: seq<Turn>, cancelledAtEnd: bool, flushOk: bool)
      returns (r: Result<nat, StreamError>)
      requires file == [] && history == []
      modifies this
      ensures IsHistory(history, old(progress), turns) && Smooth(turns, |history|)
      ensures progress == Shown(old(progress), turns, |history|)
      ensures |file| <= MAX_DOWNLOAD_BYTES
      ensures r.Ok? <==> sourceOk && createOk && Smooth(turns, |turns|) && !cancelledAtEnd && flushOk
      ensures r.Ok? ==> file == Received(turns) && r.value == |file| && |history| == |turns|
      ensures r.Err? && sourceOk && createOk && !Smooth(turns, |turns|) ==>
        && FirstProblem(turns, |history|, r.error)
        && file == Received(turns[..|history|]) + Leftover(turns[|history|], r.error)
      ensures r.Err? && sourceOk && createOk && Smooth(turns, |turns|) ==>
        && r.error == (if cancelledAtEnd then WasCancelled else FlushFailed)
        && file == Received(turns) && |history| == |turns|
      ensures !sourceOk ==> r == Err(SourceFailed) && history == []
      ensures sourceOk && !createOk ==> r == Err(CannotCreate) && history == []
    {
      if !sourceOk {
        return Err(SourceFailed);
      }
      if !createOk {
        return Err(CannotCreate);
      }

      var written, sinceUpdate := 0, 0;
      for i := 0 to |turns|
        invariant |history| == i && Smooth(turns, i) && IsHistory(history, old(progress), turns)
        invariant file == Received(turns[..i]) && written == |file| <= MAX_DOWNLOAD_BYTES
        invariant sinceUpdate == Pending(turns, i) && progress == Shown(old(progress), turns, i)
      {
        ghost var problem := Problem(turns, i);
        if turns[i].cancelled {
          return Err(WasCancelled);
        }
        if turns[i].answer.TransferBreaks? {
          return Err(TransferFailed);
        }
        OneMoreChunk(turns, i);
        written := written + |turns[i].answer.data|;
        var taken := TakeChunk(turns, i, written, sinceUpdate);
        if taken.Err? {
          return Err(taken.error);
        }
        sinceUpdate := taken.value;
        OneMoreSnapshot(history, old(progress), turns, Snapshot(file, progress));
        history := history + [Snapshot(file, progress)];
      }
      assert turns[..|turns|] == turns;
      if cancelledAtEnd {
        return Err(WasCancelled);
      }
      if !flushOk {
        return Err(FlushFailed);
      }
      r := Ok(written);
    }
  }

  // ------------------------------------------------------------------ what it amounts to

  /** The figure recorded never runs ahead of the file, and is less than one update interval
      behind it exactly when the latest update due has been accepted. */
  lemma {:induction false} BehindByLessThanAnIntervalIff(turns: seq<Turn>, n: nat)
    requires n <= |turns|
    ensures
      var (file, recorded) := (|Received(turns[..n])|, Recorded(turns, n).UnwrapOr(0));
      && recorded <= file - Pending(turns, n)
      && (file - recorded < PROGRESS_UPDATE_BYTES <==> LatestUpdateAccepted(turns, n))
      && (LatestUpdateAccepted(turns, n) ==> recorded == file - Pending(turns, n))
      && (!LatestUpdateAccepted(turns, n) ==> recorded + PROGRESS_UPDATE_BYTES <= file - Pending(turns, n))
  {
    if n > 0 {
      BehindByLessThanAnIntervalIff(turns, n - 1);
      OneMoreChunk(turns, n - 1);
    }
  }

  /** It is less than an interval behind after every turn exactly when the database accepts
      every update that falls due. */
  lemma NeverFarBehindIff(turns: seq<Turn>)
    ensures
      (forall n :: 0 <= n <= |turns| ==>
         |Received(turns[..n])| - Recorded(turns, n).UnwrapOr(0) < PROGRESS_UPDATE_BYTES)
      <==> (forall k :: 0 <= k < |turns| && IsDue(turns, k) ==> Accepts(turns, k))
  {
    forall n | 0 <= n <= |turns|
      ensures |Received(turns[..n])| - Recorded(turns, n).UnwrapOr(0) < PROGRESS_UPDATE_BYTES
              <==> LatestUpdateAccepted(turns, n)
    {
      BehindByLessThanAnIntervalIff(turns, n);
    }
    if forall k :: 0 <= k < |turns| && IsDue(turns, k) ==> Accepts(turns, k) {
      forall n | 0 <= n <= |turns| ensures LatestUpdateAccepted(turns, n) {
        AcceptedThroughout(turns, n);
      }
    }
    forall k | 0 <= k < |turns| && IsDue(turns, k) && !Accepts(turns, k) ensures !LatestUpdateAccepted(turns, k + 1) {
    }
  }

  lemma {:induction false} AcceptedThroughout(turns: seq<Turn>, n: nat)
    requires n <= |turns| && forall k :: 0 <= k < |turns| && IsDue(turns, k) ==> Accepts(turns, k)
    ensures LatestUpdateAccepted(turns, n)
  {
    if n > 0 {
      AcceptedThroughout(turns, n - 1);
    }
  }

  lemma {:induction false} RecordedFigures(turns: seq<Turn>, i: nat, j: nat)
    requires i <= j <= |turns|
    ensures Recorded(turns, j).Some? ==> PROGRESS_UPDATE_BYTES <= Recorded(turns, j).value <= |Received(turns[..j])|
    ensures Recorded(turns, i).Some? ==> Recorded(turns, j).Some? && Recorded(turns, i).value <= Recorded(turns, j).value
    decreases j
  {
    if j > 0 {
      OneMoreChunk(turns, j - 1);
      BehindByLessThanAnIntervalIff(turns, j - 1);
      RecordedFigures(turns, if i < j then i else j - 1, j - 1);
    }
  }

  /** While the body streams, the progress a row shows never falls, whatever the stream, exactly
      when what it showed before is no more than one update interval. */
  lemma StreamedProgressNeverFallsIff(before: nat)
    ensures
      (forall turns: seq<Turn>, i: nat, j: nat :: i <= j <= |turns| && Smooth(turns, |turns|) ==>
         Shown(before, turns, i) <= Shown(before, turns, j))
      <==> before <= PROGRESS_UPDATE_BYTES
  {
    if before <= PROGRESS_UPDATE_BYTES {
      forall turns: seq<Turn>, i: nat, j: nat | i <= j <= |turns| && Smooth(turns, |turns|)
        ensures Shown(before, turns, i) <= Shown(before, turns, j)
      {
        RecordedFigures(turns, i, j);
      }
    } else {
      var turns := StreamedProgressFalls(before);
      assert Shown(before, turns, 0) > Shown(before, turns, 1);
    }
  }

  /** A stream of one chunk of one interval, and the progress falls to that. */
  lemma StreamedProgressFalls(before: nat) returns (turns: seq<Turn>)
    requires before > PROGRESS_UPDATE_BYTES
    ensures |turns| == 1 && Smooth(turns, 1)
    ensures Shown(before, turns, 0) == before && Shown(before, turns, 1) == PROGRESS_UPDATE_BYTES < before
  {
    turns := OneChunk(PROGRESS_UPDATE_BYTES);
  }

  /** What the row shows over a download that completes: during the stream, and then, after the
      last turn, the size of the file. */
  function ShownInDownload(before: nat, turns: seq<Turn>, n: nat): nat
    requires n <= |turns| + 1
  {
    if n <= |turns| then Shown(before, turns, n) else |Received(turns)|
  }

  /** Over a download that completes, the progress a row shows never falls, whatever the stream,
      exactly when it starts from zero. Nothing resets it when a download is approved again. */
  lemma ShownProgressNeverFallsIff(before: nat)
    ensures
      (forall turns: seq<Turn>, i: nat, j: nat :: i <= j <= |turns| + 1 && Smooth(turns, |turns|) ==>
         ShownInDownload(before, turns, i) <= ShownInDownload(before, turns, j))
      <==> before == 0
  {
    if before == 0 {
      forall turns: seq<Turn>, i: nat, j: nat | i <= j <= |turns| + 1 && Smooth(turns, |turns|)
        ensures ShownInDownload(before, turns, i) <= ShownInDownload(before, turns, j)
      {
        assert turns[..|turns|] == turns;
        if j <= |turns| {
          RecordedFigures(turns, i, j);
        } else if i <= |turns| {
          RecordedFigures(turns, i, |turns|);
          RecordedFigures(turns, i, i);
        }
      }
    } else {
      var turns := ShownProgressFallsOnCompletion(before);
      assert ShownInDownload(before, turns, 1) > ShownInDownload(before, turns, 2);
    }
  }

  /** A body of one chunk, shorter than what the row showed before: the row keeps showing that
      while the body streams, and falls when the download completes. */
  lemma ShownProgressFallsOnCompletion(before: nat) returns (turns: seq<Turn>)
    requires before > 0
    ensures |turns| == 1 && Smooth(turns, 1)
    ensures ShownInDownload(before, turns, 1) == before > ShownInDownload(before, turns, 2)
  {
    turns := ShownProgressRunsAhead(before);
    assert turns[..1] == turns;
  }

  /** The progress a row shows is never ahead of the file, whatever the stream, exactly when it
      starts from zero. */
  lemma ShownProgressIsNeverAheadIff(before: nat)
    ensures
      (forall turns: seq<Turn>, n: nat :: 0 < n <= |turns| && Smooth(turns, |turns|) ==>
         Shown(before, turns, n) <= |Received(turns[..n])|)
      <==> before == 0
  {
    if before == 0 {
      forall turns: seq<Turn>, n: nat | 0 < n <= |turns| && Smooth(turns, |turns|)
        ensures Shown(before, turns, n) <= |Received(turns[..n])|
      {
        RecordedFigures(turns, n, n);
      }
    } else {
      var turns := ShownProgressRunsAhead(before);
      assert Shown(before, turns, 1) > |Received(turns[..1])|;
    }
  }

  /** A stream whose first chunk is shorter than the progress left over from before. */
  lemma ShownProgressRunsAhead(before: nat) returns (turns: seq<Turn>)
    requires before > 0
    ensures |turns| == 1 && Smooth(turns, 1)
    ensures |Received(turns[..1])| < before == Shown(before, turns, 1)
  {
    turns := OneChunk(if before < PROGRESS_UPDATE_BYTES then before - 1 else PROGRESS_UPDATE_BYTES - 1);
  }

  lemma OneChunk(size: nat) returns (turns: seq<Turn>)
    requires size <= PROGRESS_UPDATE_BYTES
    ensures |turns| == 1 && Smooth(turns, 1) && |Received(turns[..1])| == size
    ensures Recorded(turns, 0) == None
    ensures Recorded(turns, 1) == if size == PROGRESS_UPDATE_BYTES then Some(size) else None
  {
    turns := [Turn(false, Chunk(seq(size, _ => 0 as Byte), true, 0, true))];
    OneMoreChunk(turns, 0);
    assert turns[..0] == [] && Pending(turns, 0) == 0;
    assert Problem(turns, 0).None?;
    assert IsDue(turns, 0) <==> size == PROGRESS_UPDATE_BYTES;
    assert Recorded(turns, 0) == None;
  }

  /** A stream of one chunk of one interval whose update is refused: the row is that far behind. */
  lemma LateUpdate() returns (turns: seq<Turn>)
    ensures |turns| == 1 && Smooth(turns, 1) && IsDue(turns, 0) && !Accepts(turns, 0)
    ensures |Received(turns[..1])| - Recorded(turns, 1).UnwrapOr(0) == PROGRESS_UPDATE_BYTES
  {
    turns := [Turn(false, Chunk(seq(PROGRESS_UPDATE_BYTES, _ => 0 as Byte), true, 0, false))];
    OneMoreChunk(turns, 0);
    assert turns[..0] == [] && Pending(turns, 0) == 0;
    assert Recorded(turns, 0) == None;
    assert Problem(turns, 0).None?;
  }
}
