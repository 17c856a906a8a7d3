/**
 Putting a finished download into place: a rename, or, across file systems, a copy to a
 hidden name beside the destination followed by a rename. A disk is the history of the states it
 has been in, one call of the file system after the other, so that a statement about its history
 is a statement about every crash point and about everything another process could have seen.
*/
module Placement {
  import opened Wrappers
  import opened Decimal

  datatype Path = Path(dir: string, name: string)

  type Content = seq<Byte>

  type Files = map<Path, Content>

  // ------------------------------------------------------------------------------ names

  /** The name of a partial download in the staging directory. */
  function PartialName(id: nat, filename: string): string {
    ToString(id) + "." + filename + ".part"
  }

  /** The name a file is copied to inside the destination directory. */
  function IncomingName(filename: string): string {
    "." + filename + ".incoming"
  }

  function Incoming(to: Path): Path {
    Path(to.dir, IncomingName(to.name))
  }

  lemma {:induction false} FirstDot(a: string, x: string, b: string, y: string)
    requires forall i :: 0 <= i < |a| ==> a[i] != '.'
    requires forall i :: 0 <= i < |b| ==> b[i] != '.'
    requires a + "." + x == b + "." + y
    ensures a == b && x == y
  {
    var s := a + "." + x;
    assert s[|a|] == '.' && s[|b|] == '.';
    assert forall i :: 0 <= i < |a| ==> s[i] == a[i];
    assert forall i :: 0 <= i < |b| ==> s[i] == b[i];
    assert a == s[..|a|] && b == s[..|b|];
    assert x == s[|a| + 1..] && y == s[|b| + 1..];
  }

  /** Two queue rows never share a partial file, whatever names their plugins give. */
  lemma PartialNamesNeverCollide(id: nat, filename: string, otherId: nat, otherFilename: string)
    requires PartialName(id, filename) == PartialName(otherId, otherFilename)
    ensures id == otherId && filename == otherFilename
  {
    assert PartialName(id, filename) == ToString(id) + "." + (filename + ".part");
    assert PartialName(otherId, otherFilename) == ToString(otherId) + "." + (otherFilename + ".part");
    FirstDot(ToString(id), filename + ".part", ToString(otherId), otherFilename + ".part");
    ToStringInjective(id, otherId);
    assert filename == (filename + ".part")[..|filename|];
  }

  /** The three names the protocol uses differ even when they share a directory. */
  lemma NamesDiffer(id: nat, filename: string)
    ensures PartialName(id, filename) != filename
    ensures IncomingName(filename) != filename
    ensures PartialName(id, filename) != IncomingName(filename)
  {
    assert |PartialName(id, filename)| > |filename| && |IncomingName(filename)| > |filename|;
    assert IsDigit(PartialName(id, filename)[0]);
    assert IncomingName(filename)[0] == '.';
  }

  // -------------------------------------------------------------------------- the disk

  function Renamed(files: Files, from: Path, to: Path): Files
    requires from in files
  {
    (files - {from})[to := files[from]]
  }

  /** The file at `p` is the same in both. */
  ghost predicate SameAt(a: Files, b: Files, p: Path) {
    (p in a <==> p in b) && (p in a ==> a[p] == b[p])
  }

  ghost predicate SameExcept(a: Files, b: Files, changed: set<Path>) {
    forall p :: p !in changed ==> SameAt(a, b, p)
  }

  function Without(files: Files, p: Path): Files {
    files - {p}
  }

  function With(files: Files, p: Path, content: Content): Files {
    files[p := content]
  }

  /** What one call can do: nothing, an atomic rename, a removal, or a write to one file. */
  ghost predicate FsStep(a: Files, b: Files) {
    || a == b
    || (exists from, to :: from in a && b == Renamed(a, from, to))
    || (exists p :: b == Without(a, p))
    || (exists p, content :: b == With(a, p, content))
  }

  /** Consecutive states, one call apart. */
  ghost predicate IsTrace(states: seq<Files>) {
    |states| <= 1 ||
    var n := |states| - 1;
    IsTrace(states[..n]) && FsStep(states[n - 1], states[n])
  }

  class Disk {
    /** Every state so far; the last is the present one. */
    var history: seq<Files>

    ghost predicate Valid()
      reads this
    {
      history != [] && IsTrace(history)
    }

    function Now(): Files
      requires history != []
      reads this
    {
      history[|history| - 1]
    }

    constructor (files: Files)
      ensures Valid() && history == [files]
    {
      history := [files];
    }

    /** The call has been made, and this is how things are now. */
    method Become(next: Files)
      requires Valid() && FsStep(Now(), next)
      modifies this
      ensures Valid() && history == old(history) + [next]
    {
      assert (history + [next])[..|history|] == history;
      history := history + [next];
    }

    /** Atomic, and without effect when it fails. */
    method Rename(from: Path, to: Path, allowed: bool) returns (ok: bool)
      requires Valid()
      modifies this
      ensures Valid() && ok == (allowed && from in old(Now()))
      ensures history == old(history) + [if ok then Renamed(old(Now()), from, to) else old(Now())]
    {
      ok := allowed && from in Now();
      Become(if ok then Renamed(Now(), from, to) else Now());
    }

    method Remove(p: Path, allowed: bool)
      requires Valid()
      modifies this
      ensures Valid()
      ensures history == old(history) + [if allowed then Without(old(Now()), p) else old(Now())]
    {
      Become(if allowed then Without(Now(), p) else Now());
    }

    /** A write, which replaces what a file holds. */
    method Write(p: Path, content: Content)
      requires Valid()
      modifies this
      ensures Valid() && history == old(history) + [With(old(Now()), p, content)]
    {
      Become(With(Now(), p, content));
    }

    /** Not atomic: the target is emptied and then grows, at the pace of `writes`. Every length
        it has on the way is a state of its own. */
    method Copy(from: Path, to: Path, writes: seq<nat>, completes: bool) returns (ok: bool)
      requires Valid() && from != to
      modifies this
      ensures Valid() && ok == (completes && from in old(Now()))
      ensures history == old(history) + CopyStates(old(Now()), from, to, writes, completes)
    {
      if from !in Now() {
        return false;
      }
      var content := Now()[from];
      ghost var files := Now();
      Write(to, []);
      Grow(to, content, writes);
      GrowthFromEmpty(files, to, content, writes);
      GrowthLast(With(files, to, []), to, content, writes, content);
      WithTwice(files, to, [], content);
      Associates(old(history), [With(files, to, [])], Growth(files, to, content, writes),
                 if completes then [With(files, to, content)] else []);
      ok := completes;
      if ok {
        Write(to, content);
      }
    }

    /** A file takes these lengths one after the other. */
    method Grow(p: Path, content: Content, writes: seq<nat>)
      requires Valid()
      modifies this
      ensures Valid() && history == old(history) + Growth(old(Now()), p, content, writes)
    {
      ghost var files := Now();
      for i := 0 to |writes|
        invariant Valid() && history == old(history) + Growth(files, p, content, writes[..i])
      {
        var held := content[..Min(writes[i], |content|)];
        GrowthNext(old(history), files, p, content, writes, i);
        Write(p, held);
      }
      assert writes[..|writes|] == writes;
    }

    /** `move_into_place`. */
    method MoveIntoPlace(from: Path, to: Path, env: Outcomes) returns (r: Result<(), string>)
      requires Valid() && from != to && from != Incoming(to)
      modifies this
      ensures Valid() && history == old(history) + MoveStates(old(Now()), from, to, env)
      ensures r.Ok? <==> Moves(old(Now()), from, env)
    {
      var ok := Rename(from, to, env.rename);
      if ok {
        return Ok(());
      }
      var staged := Incoming(to);
      ghost var renamed := history;
      CopyEnds(renamed, Now(), from, staged, env.writes, env.copy);
      ok := Copy(from, staged, env.writes, env.copy);
      r := FinishMove(from, to, env, ok, old(Now()));
      Associates(old(history), [old(Now())], CopyStates(old(Now()), from, staged, env.writes, env.copy),
                 AfterCopy(old(Now()), from, to, env));
    }

    /** The calls after the copy. */
    method FinishMove(from: Path, to: Path, env: Outcomes, copied: bool, ghost before: Files)
      returns (r: Result<(), string>)
      requires Valid() && from != to && from != Incoming(to)
      requires copied == (env.copy && from in before)
      requires Now() == CopyEnd(before, from, Incoming(to), env.writes, env.copy)
      modifies this
      ensures Valid() && history == old(history) + AfterCopy(before, from, to, env)
      ensures r.Ok? <==> copied && env.renameStaged
    {
      NotIncoming(to);
      var staged := Incoming(to);
      if !copied {
        Remove(staged, env.removeStaged);
        return Err("Cannot copy");
      }
      var ok := Rename(staged, to, env.renameStaged);
      if !ok {
        Remove(staged, env.removeStaged);
        return Err("Cannot place");
      }
      RenamedCopy(before, staged, to, before[from]);
      Remove(from, env.removeSource);
      r := Ok(());
    }

    /** `place_file`: beside the series' books when it has a directory, else in staging. The
        path it answers holds the complete download; on an error the partial is still whole
        and the destination untouched. */
    method PlaceFile(id: nat, staging: string, filename: string,
                     seriesDir: Result<Option<string>, string>, isDir: bool, env: Outcomes)
      returns (r: Result<Path, string>)
      requires Valid() && Path(staging, PartialName(id, filename)) in Now()
      modifies this
      ensures Valid()
      ensures
        var from := Path(staging, PartialName(id, filename));
        var dir := if seriesDir.Ok? && seriesDir.value.Some? && isDir then seriesDir.value.value else staging;
        var to := Path(dir, filename);
        && history == old(history) + (if seriesDir.Ok? then MoveStates(old(Now()), from, to, env) else [])
        && AllSafe(history, |old(history)|, old(Now()), from, to)
        && (r.Ok? <==> seriesDir.Ok? && (env.rename || (env.copy && env.renameStaged)))
        && (r.Ok? ==> r.value == to && to in Now() && Now()[to] == old(Now())[from])
        && (r.Err? ==> SameExcept(Now(), old(Now()), {Incoming(to)}))
    {
      if seriesDir.Err? {
        return Err(seriesDir.error);
      }
      var dir := if seriesDir.value.Some? && isDir then seriesDir.value.value else staging;
      var from, destination := Path(staging, PartialName(id, filename)), Path(dir, filename);
      NamesDiffer(id, filename);
      MoveIsSafe(Now(), from, destination, env);
      MoveEnds(Now(), from, destination, env);
      var moved := MoveIntoPlace(from, destination, env);
      r := if moved.Ok? then Ok(destination) else Err(moved.error);
    }
  }

  function Min(a: nat, b: nat): nat {
    if a <= b then a else b
  }

  // ---------------------------------------------------------------------- crash points

  /** What every crash point must look like: the destination holds what it held before, or
      the complete new file, and one complete copy of the download exists. */
  ghost predicate Safe(now: Files, before: Files, from: Path, to: Path)
    requires from in before
  {
    && (SameAt(now, before, to) || (to in now && now[to] == before[from]))
    && ((from in now && now[from] == before[from]) || (to in now && now[to] == before[from]))
    && SameExcept(now, before, {from, to, Incoming(to)})
  }

  ghost predicate AllSafe(states: seq<Files>, start: nat, before: Files, from: Path, to: Path)
    requires from in before
  {
    forall i :: start <= i < |states| ==> Safe(states[i], before, from, to)
  }

  /** The move goes through: by one rename, or by a copy and a second rename. */
  predicate Moves(files: Files, from: Path, env: Outcomes) {
    from in files && (env.rename || (env.copy && env.renameStaged))
  }

  /** The states `move_into_place` goes through, call by call. */
  function MoveStates(files: Files, from: Path, to: Path, env: Outcomes): seq<Files> {
    if env.rename && from in files then [Renamed(files, from, to)]
    else [files] + CopyStates(files, from, Incoming(to), env.writes, env.copy) + AfterCopy(files, from, to, env)
  }

  /** The calls after the copy. */
  function AfterCopy(files: Files, from: Path, to: Path, env: Outcomes): seq<Files> {
    var staged := Incoming(to);
    var copied := CopyEnd(files, from, staged, env.writes, env.copy);
    if !(env.copy && from in files) then [if env.removeStaged then Without(copied, staged) else copied]
    else if !env.renameStaged then [copied, if env.removeStaged then Without(copied, staged) else copied]
    else
      var placed := With(files - {staged}, to, files[from]);
      [placed, if env.removeSource then Without(placed, from) else placed]
  }

  /** The state a copy ends in. */
  function CopyEnd(files: Files, from: Path, to: Path, writes: seq<nat>, completes: bool): Files {
    if from !in files then files
    else if completes then With(files, to, files[from])
    else With(files, to, if writes == [] then [] else files[from][..Min(writes[|writes| - 1], |files[from]|)])
  }

  /** The states of a file growing at this pace. */
  function Growth(files: Files, p: Path, content: Content, writes: seq<nat>): (r: seq<Files>)
    ensures |r| == |writes|
  {
    if writes == [] then []
    else
      var n := |writes| - 1;
      Growth(files, p, content, writes[..n]) + [With(files, p, content[..Min(writes[n], |content|)])]
  }

  /** The states of a copy. */
  function CopyStates(files: Files, from: Path, to: Path, writes: seq<nat>, completes: bool): seq<Files> {
    if from !in files then []
    else
      [With(files, to, [])] + Growth(files, to, files[from], writes)
      + if completes then [With(files, to, files[from])] else []
  }

  /** What the file system answers to each call of the protocol. */
  datatype Outcomes = Outcomes(
    rename: bool, writes: seq<nat>, copy: bool, renameStaged: bool,
    removeStaged: bool, removeSource: bool)

  /** As long as only the hidden name has been written, nothing has happened. */
  lemma UntouchedIsSafe(now: Files, before: Files, from: Path, to: Path)
    requires from in before && from != to && from != Incoming(to) && to != Incoming(to)
    requires SameExcept(now, before, {Incoming(to)})
    ensures Safe(now, before, from, to)
  {
    assert SameAt(now, before, from) && SameAt(now, before, to);
  }

  lemma {:induction false} GrowthIsLocal(files: Files, p: Path, content: Content, writes: seq<nat>)
    ensures forall i :: 0 <= i < |writes| ==> SameExcept(Growth(files, p, content, writes)[i], files, {p})
  {
    if writes != [] {
      GrowthIsLocal(files, p, content, writes[..|writes| - 1]);
    }
  }

  lemma GrowthNext(start: seq<Files>, files: Files, p: Path, content: Content, writes: seq<nat>, i: nat)
    requires i < |writes| && start != [] && start[|start| - 1] == files
    ensures
      var states := start + Growth(files, p, content, writes[..i]);
      start + Growth(files, p, content, writes[..i + 1])
        == states + [With(states[|states| - 1], p, content[..Min(writes[i], |content|)])]
  {
    assert writes[..i + 1][..i] == writes[..i];
    GrowthLast(files, p, content, writes[..i], content[..Min(writes[i], |content|)]);
  }

  lemma WithTwice(files: Files, p: Path, a: Content, b: Content)
    ensures With(With(files, p, a), p, b) == With(files, p, b)
  {
  }

  lemma GrowthLast(files: Files, p: Path, content: Content, writes: seq<nat>, next: Content)
    ensures
      var states := [files] + Growth(files, p, content, writes);
      With(states[|states| - 1], p, next) == With(files, p, next)
  {
    if writes != [] {
      WithTwice(files, p, content[..Min(writes[|writes| - 1], |content|)], next);
    }
  }

  /** Emptying the file first makes no difference to what it grows to. */
  lemma {:induction false} GrowthFromEmpty(files: Files, p: Path, content: Content, writes: seq<nat>)
    ensures Growth(With(files, p, []), p, content, writes) == Growth(files, p, content, writes)
  {
    if writes != [] {
      GrowthFromEmpty(files, p, content, writes[..|writes| - 1]);
      WithTwice(files, p, [], content[..Min(writes[|writes| - 1], |content|)]);
    }
  }

  lemma CopyEnds(states: seq<Files>, files: Files, from: Path, to: Path, writes: seq<nat>, completes: bool)
    requires states != [] && states[|states| - 1] == files
    ensures
      var after := states + CopyStates(files, from, to, writes, completes);
      after[|after| - 1] == CopyEnd(files, from, to, writes, completes)
  {
  }

  lemma RenamedCopy(files: Files, staged: Path, to: Path, content: Content)
    requires staged != to
    ensures Renamed(With(files, staged, content), staged, to) == With(files - {staged}, to, content)
  {
  }

  lemma Associates(a: seq<Files>, b: seq<Files>, c: seq<Files>, d: seq<Files>)
    ensures a + b + c + d == a + (b + c + d)
  {
  }

  /** A copy to the hidden name passes through safe states only. */
  lemma CopyIsHidden(files: Files, from: Path, to: Path, writes: seq<nat>, completes: bool)
    requires from != to && from != Incoming(to) && to != Incoming(to)
    ensures from in files ==>
      forall i :: 0 <= i < |CopyStates(files, from, Incoming(to), writes, completes)| ==>
        && SameExcept(CopyStates(files, from, Incoming(to), writes, completes)[i], files, {Incoming(to)})
        && Safe(CopyStates(files, from, Incoming(to), writes, completes)[i], files, from, to)
  {
    if from in files {
      GrowthIsLocal(files, Incoming(to), files[from], writes);
      var states := CopyStates(files, from, Incoming(to), writes, completes);
      forall i | 0 <= i < |states| ensures SameExcept(states[i], files, {Incoming(to)}) {
      }
      forall i | 0 <= i < |states| ensures Safe(states[i], files, from, to) {
        UntouchedIsSafe(states[i], files, from, to);
      }
    }
  }

  /** Every state of a move is a safe one. */
  lemma MoveIsSafe(files: Files, from: Path, to: Path, env: Outcomes)
    requires from in files && from != to && from != Incoming(to)
    ensures forall i :: 0 <= i < |MoveStates(files, from, to, env)| ==>
      Safe(MoveStates(files, from, to, env)[i], files, from, to)
  {
    NotIncoming(to);
    CopyIsHidden(files, from, to, env.writes, env.copy);
    RestIsSafe(files, from, to, env);
    UntouchedIsSafe(files, files, from, to);
  }

  lemma RestIsSafe(files: Files, from: Path, to: Path, env: Outcomes)
    requires from in files && from != to && from != Incoming(to) && to != Incoming(to)
    ensures forall i :: 0 <= i < |AfterCopy(files, from, to, env)| ==>
      Safe(AfterCopy(files, from, to, env)[i], files, from, to)
  {
    var copied := CopyEnd(files, from, Incoming(to), env.writes, env.copy);
    UntouchedIsSafe(copied, files, from, to);
    UntouchedIsSafe(Without(copied, Incoming(to)), files, from, to);
  }

  /** Where a move ends: with the whole file at the destination, or with nothing changed but the
      hidden name, which is gone too if it could be removed. */
  lemma MoveEnds(files: Files, from: Path, to: Path, env: Outcomes)
    requires from in files && from != to && from != Incoming(to)
    ensures
      var states := MoveStates(files, from, to, env);
      var end := states[|states| - 1];
      if Moves(files, from, env) then
        && to in end && end[to] == files[from]
        && (env.rename || env.removeSource ==> from !in end)
        && (Incoming(to) !in files || !env.rename ==> Incoming(to) !in end)
        && SameExcept(end, files, {from, to, Incoming(to)})
      else
        && SameExcept(end, files, {Incoming(to)})
        && (env.removeStaged ==> Incoming(to) !in end)
  {
    NotIncoming(to);
    if !env.rename {
      var rest := AfterCopy(files, from, to, env);
      assert MoveStates(files, from, to, env)[|MoveStates(files, from, to, env)| - 1] == rest[|rest| - 1];
    }
  }

  lemma NotIncoming(to: Path)
    ensures Incoming(to) != to
  {
    assert |IncomingName(to.name)| > |to.name|;
  }
}
