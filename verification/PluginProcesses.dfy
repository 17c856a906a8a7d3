/**
 Ownership of local plugin processes under concurrent start, stop and stop-all calls.

 The map of running plugins is behind one lock. `stop` keeps that lock from removing an entry
 until its child is dead, and `stop_all` keeps it for its whole sweep; `start` holds it only
 inside `stop` and for its final insert. A child dies when its handle is dropped.
*/
module PluginProcesses {
  import opened Wrappers

  type Slug = string
  type Pid = nat

  datatype Kind = Start(slug: Slug) | Stop(slug: Slug) | StopAll

  /** Where a call has got to; the phases with a pid hold the child's handle. */
  datatype Phase =
    | Waiting
    | Killing(pid: Pid)      // removed from the map, lock held
    | Vacated                // a start whose slug is free
    | Probing(pid: Pid)
    | Healthy(pid: Pid)
    | Discarding(pid: Pid)
    | Sweeping               // a stop_all, lock held
    | Finished

  datatype Call = Call(kind: Kind, phase: Phase)

  /** `slugOf` remembers every child ever spawned, `live` those that have not died. */
  datatype System = System(
    running: map<Slug, Pid>, live: set<Pid>, slugOf: map<Pid, Slug>,
    lock: Option<nat>, calls: seq<Call>)

  datatype Action =
    | Arrive(kind: Kind)
    | TakeEntry(c: nat)
    | FinishKill(c: nat)
    | Spawn(c: nat, pid: Pid)
    | SpawnFails(c: nat)
    | Probe(c: nat, ok: bool)
    | Discard(c: nat)
    | Insert(c: nat)
    | BeginSweep(c: nat)
    | SweepOne(c: nat, slug: Slug)
    | EndSweep(c: nat)
    | Abandon(c: nat)        // the caller's future is dropped
    | ChildExits(pid: Pid)

  predicate At(s: System, c: nat, phase: Phase) {
    c < |s.calls| && s.calls[c].phase == phase
  }

  predicate IsStart(s: System, c: nat) {
    c < |s.calls| && s.calls[c].kind.Start?
  }

  ghost predicate Enabled(s: System, a: Action) {
    match a
    case Arrive(_) => true
    case TakeEntry(c) => At(s, c, Waiting) && !s.calls[c].kind.StopAll? && s.lock.None?
    case FinishKill(c) => c < |s.calls| && s.calls[c].phase.Killing?
    case Spawn(c, pid) => At(s, c, Vacated) && s.calls[c].kind.Start? && pid !in s.slugOf
    case SpawnFails(c) => At(s, c, Vacated)
    case Probe(c, _) => c < |s.calls| && s.calls[c].phase.Probing?
    case Discard(c) => c < |s.calls| && s.calls[c].phase.Discarding?
    case Insert(c) => c < |s.calls| && s.calls[c].phase.Healthy? && s.calls[c].kind.Start? && s.lock.None?
    case BeginSweep(c) => At(s, c, Waiting) && s.calls[c].kind.StopAll? && s.lock.None?
    case SweepOne(c, slug) => At(s, c, Sweeping) && slug in s.running
    case EndSweep(c) => At(s, c, Sweeping) && forall slug :: slug in s.running ==> s.running[slug] !in s.live
    case Abandon(c) => c < |s.calls| && s.calls[c].phase != Finished
    case ChildExits(pid) => pid in s.live
  }

  function MoveTo(s: System, c: nat, phase: Phase): System
    requires c < |s.calls|
  {
    s.(calls := s.calls[c := s.calls[c].(phase := phase)])
  }

  function AfterStop(kind: Kind): Phase {
    if kind.Start? then Vacated else Finished
  }

  predicate Holds(phase: Phase) {
    phase.Killing? || phase.Probing? || phase.Healthy? || phase.Discarding?
  }

  /** The child whose handle a call has, if it has one. */
  function Held(call: Call): set<Pid> {
    if Holds(call.phase) then {call.phase.pid} else {}
  }

  /** What `running.remove(slug)` or a replacing `running.insert(slug, ...)` hands back. */
  function EntryOf(running: map<Slug, Pid>, slug: Slug): set<Pid> {
    if slug in running then {running[slug]} else {}
  }

  ghost function Do(s: System, a: Action): System
    requires Enabled(s, a)
  {
    match a
    case Arrive(kind) => s.(calls := s.calls + [Call(kind, Waiting)])
    case TakeEntry(c) =>
      var slug := s.calls[c].kind.slug;
      if slug in s.running then
        MoveTo(s, c, Killing(s.running[slug])).(running := s.running - {slug}, lock := Some(c))
      else MoveTo(s, c, AfterStop(s.calls[c].kind))
    case FinishKill(c) =>
      MoveTo(s, c, AfterStop(s.calls[c].kind)).(live := s.live - Held(s.calls[c]), lock := None)
    case Spawn(c, pid) =>
      MoveTo(s, c, Probing(pid)).(live := s.live + {pid}, slugOf := s.slugOf[pid := s.calls[c].kind.slug])
    case SpawnFails(c) => MoveTo(s, c, Finished)
    case Probe(c, ok) =>
      MoveTo(s, c, if ok then Healthy(s.calls[c].phase.pid) else Discarding(s.calls[c].phase.pid))
    case Discard(c) => MoveTo(s, c, Finished).(live := s.live - Held(s.calls[c]))
    case Insert(c) =>
      var slug := s.calls[c].kind.slug;
      MoveTo(s, c, Finished).(running := s.running[slug := s.calls[c].phase.pid],
                              live := s.live - EntryOf(s.running, slug))
    case BeginSweep(c) => MoveTo(s, c, Sweeping).(lock := Some(c))
    case SweepOne(c, slug) => s.(live := s.live - {s.running[slug]})
    case EndSweep(c) => MoveTo(s, c, Finished).(running := map[], lock := None)
    case Abandon(c) =>
      MoveTo(s, c, Finished).(live := s.live - Held(s.calls[c]), lock := if s.lock == Some(c) then None else s.lock)
    case ChildExits(pid) => s.(live := s.live - {pid})
  }

  datatype Run = Run(states: seq<System>, actions: seq<Action>)

  ghost predicate Initial(s: System) {
    s == System(map[], {}, map[], None, [])
  }

  ghost predicate IsRun(run: Run) {
    && |run.states| == |run.actions| + 1
    && Initial(run.states[0])
    && forall i :: 0 <= i < |run.actions| ==>
         Enabled(run.states[i], run.actions[i]) && run.states[i + 1] == Do(run.states[i], run.actions[i])
  }

  // -------------------------------------------------------------------------- invariants

  ghost predicate MapOwns(s: System, pid: Pid) {
    exists slug :: slug in s.running && s.running[slug] == pid
  }

  ghost predicate CallOwns(s: System, c: nat, pid: Pid) {
    c < |s.calls| && Holds(s.calls[c].phase) && s.calls[c].phase.pid == pid
  }

  ghost predicate Owned(s: System, pid: Pid) {
    MapOwns(s, pid) || exists c: nat :: CallOwns(s, c, pid)
  }

  ghost predicate MapOk(s: System) {
    forall slug :: slug in s.running ==> s.running[slug] in s.slugOf && s.slugOf[s.running[slug]] == slug
  }

  ghost predicate LocksMap(s: System, c: nat) {
    c < |s.calls| && (s.calls[c].phase.Killing? || s.calls[c].phase.Sweeping?)
  }

  ghost predicate CallOk(s: System, c: nat)
    requires c < |s.calls|
  {
    var Call(kind, phase) := s.calls[c];
    && (phase.Vacated? || phase.Probing? || phase.Healthy? || phase.Discarding? ==> kind.Start?)
    && (phase.Killing? ==> !kind.StopAll? && kind.slug !in s.running)
    && (phase.Sweeping? ==> kind.StopAll?)
    && (LocksMap(s, c) <==> s.lock == Some(c))
    && (Holds(phase) ==>
         && !kind.StopAll?
         && phase.pid in s.slugOf && s.slugOf[phase.pid] == kind.slug
         && (kind.slug in s.running ==> s.running[kind.slug] != phase.pid))
  }

  ghost predicate Inv(s: System) {
    && MapOk(s)
    && (forall c :: 0 <= c < |s.calls| ==> CallOk(s, c))
    && (forall c, d :: 0 <= c < d < |s.calls| ==>
         !(Holds(s.calls[c].phase) && Holds(s.calls[d].phase) && s.calls[c].phase.pid == s.calls[d].phase.pid))
    && s.live <= s.slugOf.Keys
    && (forall pid :: pid in s.live ==> Owned(s, pid))
    && (s.lock.Some? ==> s.lock.value < |s.calls|)
  }

  lemma CallsStayOk(s: System, a: Action)
    requires Inv(s) && Enabled(s, a)
    ensures forall c :: 0 <= c < |Do(s, a).calls| ==> CallOk(Do(s, a), c)
  {
    var s' := Do(s, a);
    assert a.FinishKill? || a.EndSweep? || a.Abandon? ==> CallOk(s, a.c);
    forall c | 0 <= c < |s'.calls| ensures CallOk(s', c) {
      assert c < |s.calls| ==> CallOk(s, c);
    }
  }

  lemma MapStaysOk(s: System, a: Action)
    requires Inv(s) && Enabled(s, a)
    ensures MapOk(Do(s, a)) && Do(s, a).live <= Do(s, a).slugOf.Keys
  {
    assert forall c :: 0 <= c < |s.calls| ==> CallOk(s, c);
    assert a.Insert? ==> CallOk(s, a.c);
  }

  lemma HandlesStayDistinct(s: System, a: Action, c: nat, d: nat)
    requires Inv(s) && Enabled(s, a)
    requires c < d < |Do(s, a).calls|
    requires Holds(Do(s, a).calls[c].phase) && Holds(Do(s, a).calls[d].phase)
    ensures Do(s, a).calls[c].phase.pid != Do(s, a).calls[d].phase.pid
  {
    assert c < |s.calls| ==> CallOk(s, c);
    assert d < |s.calls| ==> CallOk(s, d);
  }

  lemma LiveStaysOwned(s: System, a: Action, pid: Pid)
    requires Inv(s) && Enabled(s, a) && pid in Do(s, a).live
    ensures Owned(Do(s, a), pid)
  {
    var s' := Do(s, a);
    if pid in s.live {
      assert Owned(s, pid);
      if slug :| slug in s.running && s.running[slug] == pid {
        if slug in s'.running && s'.running[slug] == pid {
          assert MapOwns(s', pid);
        } else {
          assert a.TakeEntry? && CallOwns(s', a.c, pid);
        }
      } else {
        var c: nat :| CallOwns(s, c, pid);
        assert CallOk(s, c);
        if a == Insert(c) {
          assert s'.running[s.calls[c].kind.slug] == pid;
          assert MapOwns(s', pid);
        } else {
          assert CallOwns(s', c, pid);
        }
      }
    } else {
      assert a.Spawn? && CallOwns(s', a.c, pid);
    }
  }

  lemma StepKeepsInv(s: System, a: Action)
    requires Inv(s) && Enabled(s, a)
    ensures Inv(Do(s, a))
  {
    var s' := Do(s, a);
    CallsStayOk(s, a);
    MapStaysOk(s, a);
    forall c, d | 0 <= c < d < |s'.calls| && Holds(s'.calls[c].phase) && Holds(s'.calls[d].phase)
      ensures s'.calls[c].phase.pid != s'.calls[d].phase.pid
    {
      HandlesStayDistinct(s, a, c, d);
    }
    forall pid | pid in s'.live ensures Owned(s', pid) {
      LiveStaysOwned(s, a, pid);
    }
  }

  lemma {:induction false} RunKeepsInv(run: Run, i: nat)
    requires IsRun(run) && i < |run.states|
    ensures Inv(run.states[i])
  {
    if i > 0 {
      RunKeepsInv(run, i - 1);
      StepKeepsInv(run.states[i - 1], run.actions[i - 1]);
      assert run.states[(i - 1) + 1] == Do(run.states[i - 1], run.actions[i - 1]);
    }
  }

  // ------------------------------------------------------------------ theorems over runs

  /** In every interleaving each live child has exactly one owner: one entry of the map, under
      its own slug, or one call that is still in flight. */
  lemma EveryChildHasOneOwner(run: Run, i: nat, pid: Pid)
    requires IsRun(run) && i < |run.states| && pid in run.states[i].live
    ensures Owned(run.states[i], pid) && pid in run.states[i].slugOf
    ensures forall c: nat :: CallOwns(run.states[i], c, pid) ==> !MapOwns(run.states[i], pid)
    ensures forall c: nat, d: nat :: CallOwns(run.states[i], c, pid) && CallOwns(run.states[i], d, pid) ==> c == d
    ensures forall slug :: slug in run.states[i].running && run.states[i].running[slug] == pid ==>
              slug == run.states[i].slugOf[pid]
  {
    RunKeepsInv(run, i);
    var s := run.states[i];
    forall c: nat | CallOwns(s, c, pid) ensures !MapOwns(s, pid) {
      assert CallOk(s, c);
    }
  }

  /** A start that has neither finished nor been dropped. */
  ghost predicate StartInFlight(s: System) {
    exists c :: 0 <= c < |s.calls| && s.calls[c].kind.Start? && s.calls[c].phase != Finished
  }

  ghost predicate HeldByStart(s: System, pid: Pid) {
    exists c: nat :: CallOwns(s, c, pid) && IsStart(s, c)
  }

  /** Whenever no start is in flight, no slug has two live children. */
  lemma OneChildPerSlug(run: Run, i: nat, a: Pid, b: Pid)
    requires IsRun(run) && i < |run.states| && !StartInFlight(run.states[i])
    requires a in run.states[i].live && b in run.states[i].live
    requires a in run.states[i].slugOf && b in run.states[i].slugOf
    requires run.states[i].slugOf[a] == run.states[i].slugOf[b]
    ensures a == b
  {
    RunKeepsInv(run, i);
    var s := run.states[i];
    OwnerWithoutStarts(s, a);
    OwnerWithoutStarts(s, b);
  }

  /** Without starts in flight, a live child is in the map under its slug or in the hands of
      the one stop that holds the lock, whose slug is then not in the map. */
  lemma OwnerWithoutStarts(s: System, pid: Pid)
    requires Inv(s) && !StartInFlight(s) && pid in s.live
    ensures
      var slug := s.slugOf[pid];
      || (slug in s.running && s.running[slug] == pid)
      || (s.lock.Some? && CallOwns(s, s.lock.value, pid) && slug !in s.running)
  {
    assert Owned(s, pid);
    if c: nat :| CallOwns(s, c, pid) {
      assert CallOk(s, c);
    }
  }

  /** When nothing is in flight at all, every live child is in the map: no call leaks one. */
  lemma NothingLeaksWhenQuiet(run: Run, i: nat, pid: Pid)
    requires IsRun(run) && i < |run.states|
    requires forall c :: 0 <= c < |run.states[i].calls| ==> run.states[i].calls[c].phase == Finished
    requires pid in run.states[i].live
    ensures pid in run.states[i].slugOf && run.states[i].slugOf[pid] in run.states[i].running
    ensures run.states[i].running[run.states[i].slugOf[pid]] == pid
  {
    RunKeepsInv(run, i);
    assert Owned(run.states[i], pid);
  }

  /** When a `stop_all` returns, the children left are exactly the ones that starts in flight
      are holding; with no start in flight there are none. */
  lemma StopAllLeavesOnlyStartsInFlight(run: Run, i: nat, c: nat, left: System)
    requires IsRun(run) && i < |run.actions| && run.actions[i] == EndSweep(c) && left == run.states[i + 1]
    ensures left.running == map[]
    ensures forall pid :: pid in left.live ==> HeldByStart(left, pid)
    ensures !StartInFlight(left) ==> left.live == {}
  {
    RunKeepsInv(run, i);
    RunKeepsInv(run, i + 1);
    assert left == Do(run.states[i], run.actions[i]);
    assert CallOk(run.states[i], c);
    forall pid | pid in left.live ensures HeldByStart(left, pid) {
      assert Owned(left, pid);
      var d: nat :| CallOwns(left, d, pid);
      assert CallOk(left, d);
    }
  }

  predicate BringsAStart(a: Action) {
    a.Arrive? && a.kind.Start?
  }

  /** This start has a child to come, or one that is alive. */
  predicate MayStillRun(s: System, call: Call) {
    && call.kind.Start?
    && (call.phase.Waiting? || call.phase.Killing? || call.phase.Vacated?
        || (Holds(call.phase) && call.phase.pid in s.live))
  }

  ghost predicate ChildMayLive(s: System) {
    exists c :: 0 <= c < |s.calls| && MayStillRun(s, s.calls[c])
  }

  /** No child alive, and no start that could still bring one. */
  ghost predicate Barren(s: System) {
    s.live == {} && forall c :: 0 <= c < |s.calls| ==> !MayStillRun(s, s.calls[c])
  }

  lemma BarrenStaysBarren(s: System, a: Action)
    requires Barren(s) && Enabled(s, a) && !BringsAStart(a)
    ensures Barren(Do(s, a))
  {
    var after := Do(s, a);
    forall c | 0 <= c < |after.calls| ensures !MayStillRun(after, after.calls[c]) {
      if c < |s.calls| {
        assert !MayStillRun(s, s.calls[c]);
      }
    }
  }

  lemma {:induction false} BarrenUntilAStart(run: Run, i: nat, k: nat)
    requires IsRun(run) && i <= k < |run.states| && Barren(run.states[i])
    requires forall n :: i <= n < k ==> !BringsAStart(run.actions[n])
    ensures Barren(run.states[k])
    decreases k
  {
    if i < k {
      BarrenUntilAStart(run, i, k - 1);
      var (s, a) := (run.states[k - 1], run.actions[k - 1]);
      assert Enabled(s, a) && run.states[(k - 1) + 1] == Do(s, a);
      assert !BringsAStart(a);
      BarrenStaysBarren(s, a);
    }
  }

  lemma BarrenAfterStopAll(run: Run, i: nat, c: nat)
    requires IsRun(run) && i < |run.actions| && run.actions[i] == EndSweep(c)
    requires !ChildMayLive(run.states[i + 1])
    ensures Barren(run.states[i + 1])
  {
    var left := run.states[i + 1];
    StopAllLeavesOnlyStartsInFlight(run, i, c, left);
    if pid :| pid in left.live {
      HeldMayLive(left, pid);
    }
  }

  lemma HeldMayLive(s: System, pid: Pid)
    requires pid in s.live && HeldByStart(s, pid)
    ensures ChildMayLive(s)
  {
    var c: nat :| CallOwns(s, c, pid) && IsStart(s, c);
    assert MayStillRun(s, s.calls[c]);
  }

  /** After a `stop_all` that leaves no start with a child alive or to come, no child is alive
      until a new start arrives. */
  lemma NothingLivesAfterStopAll(run: Run, i: nat, k: nat, c: nat)
    requires IsRun(run) && i < k < |run.states| && run.actions[i] == EndSweep(c)
    requires !ChildMayLive(run.states[i + 1])
    requires forall n :: i < n < k ==> !BringsAStart(run.actions[n])
    ensures run.states[k].live == {}
  {
    BarrenAfterStopAll(run, i, c);
    BarrenUntilAStart(run, i + 1, k);
  }

  /** A way on from a state, without a new start. */
  ghost predicate GoesOn(s: System, actions: seq<Action>)
    decreases |actions|
  {
    actions == [] || (Enabled(s, actions[0]) && !BringsAStart(actions[0]) && GoesOn(Do(s, actions[0]), actions[1..]))
  }

  ghost function Then(s: System, actions: seq<Action>): System
    requires GoesOn(s, actions)
    decreases |actions|
  {
    if actions == [] then s else Then(Do(s, actions[0]), actions[1..])
  }

  lemma {:induction false} BarrenGoesOn(s: System, actions: seq<Action>)
    requires Barren(s) && GoesOn(s, actions)
    ensures Barren(Then(s, actions))
    decreases |actions|
  {
    if actions != [] {
      BarrenStaysBarren(s, actions[0]);
      BarrenGoesOn(Do(s, actions[0]), actions[1..]);
    }
  }

  lemma NewPid(pids: set<Pid>) returns (pid: Pid)
    ensures pid !in pids
  {
    pid := 0;
    var left := pids;
    while left != {}
      invariant left <= pids && forall other :: other in pids && other !in left ==> other < pid
      decreases |left|
    {
      var other :| other in left;
      pid := if other < pid then pid else other + 1;
      left := left - {other};
    }
  }

  lemma SpawnComesNext(s: System, c: nat) returns (actions: seq<Action>)
    requires At(s, c, Vacated) && IsStart(s, c)
    ensures GoesOn(s, actions) && Then(s, actions).live != {}
  {
    var pid := NewPid(s.slugOf.Keys);
    actions := [Spawn(c, pid)];
    var spawned := Do(s, Spawn(c, pid));
    assert actions[1..] == [] && GoesOn(spawned, []) && pid in spawned.live;
    assert Then(s, actions) == Then(spawned, []) == spawned;
  }

  /** A start that may still run has a way to a live child. */
  lemma SomeChildLives(s: System, c: nat) returns (actions: seq<Action>)
    requires Inv(s) && s.lock.None? && s.running == map[] && c < |s.calls| && MayStillRun(s, s.calls[c])
    ensures GoesOn(s, actions) && Then(s, actions).live != {}
  {
    var phase := s.calls[c].phase;
    assert CallOk(s, c);
    if Holds(phase) {
      actions := [];
      assert phase.pid in Then(s, []).live;
    } else if phase.Vacated? {
      actions := SpawnComesNext(s, c);
    } else {
      var vacated := Do(s, TakeEntry(c));
      var rest := SpawnComesNext(vacated, c);
      actions := [TakeEntry(c)] + rest;
      assert actions[1..] == rest;
    }
  }

  /** When a `stop_all` returns, a child may be alive then or later without a new start, exactly
      when some start has not got its child yet or holds one that is alive. */
  lemma StopAllIsFinalIff(run: Run, i: nat, c: nat)
    requires IsRun(run) && i < |run.actions| && run.actions[i] == EndSweep(c)
    ensures
      var left := run.states[i + 1];
      (exists actions :: GoesOn(left, actions) && Then(left, actions).live != {}) <==> ChildMayLive(left)
  {
    var left := run.states[i + 1];
    if ChildMayLive(left) {
      RunKeepsInv(run, i);
      RunKeepsInv(run, i + 1);
      assert left == Do(run.states[i], run.actions[i]);
      var d :| 0 <= d < |left.calls| && MayStillRun(left, left.calls[d]);
      var actions := SomeChildLives(left, d);
    } else {
      BarrenAfterStopAll(run, i, c);
      forall actions | GoesOn(left, actions) ensures Then(left, actions).live == {} {
        BarrenGoesOn(left, actions);
      }
    }
  }

  /** An instance: a start that is still probing when `stop_all` runs registers its
      child afterwards, and the child outlives the shutdown. */
  lemma StartInFlightOutlivesStopAll() returns (run: Run)
    ensures IsRun(run) && |run.actions| == 8
    ensures run.actions[5] == EndSweep(1) && StartInFlight(run.states[6])
    ensures run.states[8].live == {7} && run.states[8].running == map["a" := 7]
    ensures forall c :: 0 <= c < |run.states[8].calls| ==> run.states[8].calls[c].phase == Finished
  {
    var start := Start("a");
    run := StopAllDuringStart();
    assert run.states[6].calls[0].phase == Probing(7);
    run := Extended(run, Probe(0, true),
      System(map[], {7}, map[7 := "a"], None, [Call(start, Healthy(7)), Call(StopAll, Finished)]));
    run := Extended(run, Insert(0),
      System(map["a" := 7], {7}, map[7 := "a"], None, [Call(start, Finished), Call(StopAll, Finished)]));
  }

  lemma StopAllDuringStart() returns (run: Run)
    ensures IsRun(run) && |run.actions| == 6 && run.actions[5] == EndSweep(1)
    ensures run.states[6] ==
      System(map[], {7}, map[7 := "a"], None, [Call(Start("a"), Probing(7)), Call(StopAll, Finished)])
  {
    var probing := Call(Start("a"), Probing(7));
    run := SpawnedChild();
    run := Extended(run, Arrive(StopAll), System(map[], {7}, map[7 := "a"], None, [probing, Call(StopAll, Waiting)]));
    run := Extended(run, BeginSweep(1), System(map[], {7}, map[7 := "a"], Some(1), [probing, Call(StopAll, Sweeping)]));
    run := Extended(run, EndSweep(1), System(map[], {7}, map[7 := "a"], None, [probing, Call(StopAll, Finished)]));
  }

  lemma SpawnedChild() returns (run: Run)
    ensures IsRun(run) && |run.actions| == 3
    ensures run.states[3] == System(map[], {7}, map[7 := "a"], None, [Call(Start("a"), Probing(7))])
  {
    var start := Start("a");
    run := Run([System(map[], {}, map[], None, [])], []);
    run := Extended(run, Arrive(start), System(map[], {}, map[], None, [Call(start, Waiting)]));
    run := Extended(run, TakeEntry(0), System(map[], {}, map[], None, [Call(start, Vacated)]));
    run := Extended(run, Spawn(0, 7), System(map[], {7}, map[7 := "a"], None, [Call(start, Probing(7))]));
  }

  /** A run one step longer. */
  lemma Extended(run: Run, a: Action, next: System) returns (longer: Run)
    requires IsRun(run) && Enabled(run.states[|run.actions|], a) && next == Do(run.states[|run.actions|], a)
    ensures longer == Run(run.states + [next], run.actions + [a]) && IsRun(longer)
  {
    longer := Run(run.states + [next], run.actions + [a]);
    forall i | 0 <= i < |longer.actions|
      ensures Enabled(longer.states[i], longer.actions[i]) && longer.states[i + 1] == Do(longer.states[i], longer.actions[i])
    {
      if i < |run.actions| {
        assert Enabled(run.states[i], run.actions[i]) && run.states[i + 1] == Do(run.states[i], run.actions[i]);
      }
    }
  }

  // -------------------------------------------------------------------- what a stop does

  /** The call is about to kill this child. */
  predicate IsEnding(phase: Phase, pid: Pid) {
    phase == Killing(pid) || phase == Discarding(pid)
  }

  /** The child is in nobody's hands but those of the call that is about to kill it, if it is alive
      at all. */
  ghost predicate Doomed(s: System, c: nat, pid: Pid) {
    && c < |s.calls| && pid in s.slugOf
    && (forall slug :: slug in s.running ==> s.running[slug] != pid)
    && (forall d: nat :: CallOwns(s, d, pid) ==> d == c && IsEnding(s.calls[c].phase, pid))
    && (pid in s.live ==> IsEnding(s.calls[c].phase, pid))
  }

  lemma DoomedStays(s: System, a: Action, c: nat, pid: Pid)
    requires Doomed(s, c, pid) && Enabled(s, a)
    ensures Doomed(Do(s, a), c, pid)
  {
    var after := Do(s, a);
    forall d: nat | CallOwns(after, d, pid) ensures CallOwns(s, d, pid) && d == c && IsEnding(after.calls[c].phase, pid) {
      assert CallOwns(s, d, pid);
    }
    if a.Insert? {
      assert !CallOwns(s, a.c, pid);
    }
  }

  lemma {:induction false} DoomedForEver(run: Run, i: nat, k: nat, c: nat, pid: Pid)
    requires IsRun(run) && i <= k < |run.states| && Doomed(run.states[i], c, pid)
    ensures Doomed(run.states[k], c, pid)
    decreases k
  {
    if i < k {
      DoomedForEver(run, i, k - 1, c, pid);
      assert Enabled(run.states[k - 1], run.actions[k - 1]);
      assert run.states[(k - 1) + 1] == Do(run.states[k - 1], run.actions[k - 1]);
      DoomedStays(run.states[k - 1], run.actions[k - 1], c, pid);
    }
  }

  /** A stop, or the stop inside a start, that gets the lock takes the child that is then under its
      slug. From there on that child is never registered, no other is while the call holds the lock,
      and once the call leaves that phase, in whatever way, the child is dead. */
  lemma StopKillsTheChild(run: Run, i: nat, k: nat, c: nat, slug: Slug)
    requires IsRun(run) && i < k < |run.states| && run.actions[i] == TakeEntry(c)
    requires c < |run.states[i].calls| && !run.states[i].calls[c].kind.StopAll? && run.states[i].calls[c].kind.slug == slug
    requires slug in run.states[i].running
    ensures
      var (pid, s) := (run.states[i].running[slug], run.states[k]);
      && run.states[i + 1].calls[c].phase == Killing(pid)
      && c < |s.calls|
      && (forall other :: other in s.running ==> s.running[other] != pid)
      && (s.calls[c].phase == Killing(pid) ==> slug !in s.running)
      && (s.calls[c].phase != Killing(pid) ==> pid !in s.live)
  {
    var pid := run.states[i].running[slug];
    RunKeepsInv(run, i);
    RunKeepsInv(run, i + 1);
    RunKeepsInv(run, k);
    assert run.states[i + 1] == Do(run.states[i], run.actions[i]);
    TakenIsDoomed(run.states[i], c, slug);
    DoomedForEver(run, i + 1, k, c, pid);
    NeverDiscards(run, i + 1, k, c, run.states[i].calls[c].kind, pid);
    assert CallOk(run.states[k], c);
  }

  lemma TakenIsDoomed(s: System, c: nat, slug: Slug)
    requires Inv(s) && Enabled(s, TakeEntry(c)) && s.calls[c].kind.slug == slug && slug in s.running
    ensures Doomed(Do(s, TakeEntry(c)), c, s.running[slug])
    ensures Do(s, TakeEntry(c)).calls[c].phase == Killing(s.running[slug])
  {
    var (pid, after) := (s.running[slug], Do(s, TakeEntry(c)));
    assert s.slugOf[pid] == slug;
    forall other | other in after.running ensures after.running[other] != pid {
      assert s.slugOf[s.running[other]] == other;
    }
    forall d: nat ensures !CallOwns(s, d, pid) {
      if d < |s.calls| {
        assert CallOk(s, d);
      }
    }
    assert forall d: nat :: CallOwns(after, d, pid) ==> d == c || CallOwns(s, d, pid);
  }

  /** A call that has left the killing of this child never holds it again. */
  ghost predicate Released(s: System, c: nat, kind: Kind, pid: Pid) {
    c < |s.calls| && s.calls[c].kind == kind && pid in s.slugOf && s.calls[c].phase != Discarding(pid) && s.calls[c].phase != Probing(pid)
  }

  lemma {:induction false} NeverDiscards(run: Run, i: nat, k: nat, c: nat, kind: Kind, pid: Pid)
    requires IsRun(run) && i <= k < |run.states| && Released(run.states[i], c, kind, pid)
    ensures Released(run.states[k], c, kind, pid)
    decreases k
  {
    if i < k {
      NeverDiscards(run, i, k - 1, c, kind, pid);
      assert Enabled(run.states[k - 1], run.actions[k - 1]);
      assert run.states[(k - 1) + 1] == Do(run.states[k - 1], run.actions[k - 1]);
      ReleasedStays(run.states[k - 1], run.actions[k - 1], c, kind, pid);
    }
  }

  lemma ReleasedStays(s: System, a: Action, c: nat, kind: Kind, pid: Pid)
    requires Released(s, c, kind, pid) && Enabled(s, a)
    ensures Released(Do(s, a), c, kind, pid)
  {
  }

  /** A stop that has returned, and was not abandoned, has had the lock. */
  lemma {:induction false} StopHadTheLock(run: Run, i: nat, k: nat, c: nat) returns (n: nat)
    requires IsRun(run) && i <= k < |run.states| && At(run.states[i], c, Waiting)
    requires !run.states[i].calls[c].kind.StopAll?
    requires !At(run.states[k], c, Waiting) && forall m :: i <= m < k ==> run.actions[m] != Abandon(c)
    ensures i <= n < k && run.actions[n] == TakeEntry(c)
    ensures At(run.states[n], c, Waiting) && run.states[n].calls[c].kind == run.states[i].calls[c].kind
    decreases k - i
  {
    assert Enabled(run.states[i], run.actions[i]) && run.states[i + 1] == Do(run.states[i], run.actions[i]);
    assert run.actions[i] != Abandon(c);
    if run.actions[i] == TakeEntry(c) {
      n := i;
    } else {
      n := StopHadTheLock(run, i + 1, k, c);
    }
  }

  /** When a `stop` has returned, the child that was under its slug when it got the lock is dead and
      not registered. */
  lemma StopStops(run: Run, i: nat, k: nat, c: nat, slug: Slug) returns (n: nat)
    requires IsRun(run) && i <= k < |run.states| && At(run.states[i], c, Waiting)
    requires run.states[i].calls[c].kind == Stop(slug) && At(run.states[k], c, Finished)
    requires forall m :: i <= m < k ==> run.actions[m] != Abandon(c)
    ensures i <= n < k && run.actions[n] == TakeEntry(c)
    ensures slug in run.states[n].running ==>
      var pid := run.states[n].running[slug];
      pid !in run.states[k].live && forall other :: other in run.states[k].running ==> run.states[k].running[other] != pid
  {
    n := StopHadTheLock(run, i, k, c);
    if slug in run.states[n].running {
      StopKillsTheChild(run, n, k, c, slug);
    }
  }

  /** A child that has failed its probe is never registered, and once its start has let go of it, it
      is dead. */
  lemma FailedProbeKills(run: Run, i: nat, k: nat, c: nat, pid: Pid)
    requires IsRun(run) && i < k < |run.states| && run.actions[i] == Probe(c, false)
    requires At(run.states[i], c, Probing(pid))
    ensures
      var s := run.states[k];
      && c < |s.calls|
      && (forall slug :: slug in s.running ==> s.running[slug] != pid)
      && (pid in s.live ==> IsEnding(s.calls[c].phase, pid))
  {
    RunKeepsInv(run, i);
    var s := run.states[i];
    var failed := run.states[i + 1];
    assert failed == Do(s, run.actions[i]) && CallOk(s, c);
    forall d: nat | CallOwns(failed, d, pid) ensures d == c {
      assert CallOwns(s, d, pid) && CallOwns(s, c, pid);
    }
    forall slug | slug in s.running ensures s.running[slug] != pid {
      assert s.slugOf[s.running[slug]] == slug;
    }
    DoomedForEver(run, i + 1, k, c, pid);
  }

  /** A start that registers its child replaces and kills the one that was there. */
  lemma InsertRegistersTheChild(run: Run, i: nat, c: nat)
    requires IsRun(run) && i < |run.actions| && run.actions[i] == Insert(c)
    ensures
      var (s, after) := (run.states[i], run.states[i + 1]);
      && c < |s.calls| && s.calls[c].kind.Start? && s.calls[c].phase.Healthy?
      && var (slug, pid) := (s.calls[c].kind.slug, s.calls[c].phase.pid);
         && slug in after.running && after.running[slug] == pid
         && (pid in after.live <==> pid in s.live)
         && (slug in s.running ==> s.running[slug] !in after.live)
  {
    RunKeepsInv(run, i);
    var s := run.states[i];
    assert Enabled(s, run.actions[i]) && run.states[i + 1] == Do(s, run.actions[i]);
    assert CallOk(s, c);
  }

  // ------------------------------------------------------- the code takes only these steps

  /** The children as the code has them between calls. */
  datatype Table = Table(running: map<Slug, Pid>, live: set<Pid>, slugOf: map<Pid, Slug>)

  function Stopped(t: Table, slug: Slug): Table {
    Table(t.running - {slug}, t.live - EntryOf(t.running, slug), t.slugOf)
  }

  function Started(t: Table, slug: Slug, spawned: Option<Pid>, healthy: bool): Table {
    var vacated := Stopped(t, slug);
    if spawned.None? then vacated
    else
      var slugOf := t.slugOf[spawned.value := slug];
      if healthy then Table(vacated.running[slug := spawned.value], vacated.live + {spawned.value}, slugOf)
      else vacated.(slugOf := slugOf)
  }

  function AllStopped(t: Table): Table {
    Table(map[], t.live - t.running.Values, t.slugOf)
  }

  /** The system is this table and these calls, and nobody holds the lock. */
  ghost predicate Shows(s: System, t: Table, calls: seq<Call>) {
    s == System(t.running, t.live, t.slugOf, None, calls)
  }

  lemma {:induction false} GoesOnFurther(s: System, a: seq<Action>, b: seq<Action>)
    requires GoesOn(s, a) && GoesOn(Then(s, a), b)
    ensures GoesOn(s, a + b) && Then(s, a + b) == Then(Then(s, a), b)
    decreases |a|
  {
    if a == [] {
      assert a + b == b;
    } else {
      GoesOnFurther(Do(s, a[0]), a[1..], b);
      assert (a + b)[1..] == a[1..] + b;
    }
  }

  lemma OneStep(s: System, a: Action)
    requires Enabled(s, a) && !BringsAStart(a)
    ensures GoesOn(s, [a]) && Then(s, [a]) == Do(s, a)
  {
    assert [a][1..] == [] && GoesOn(Do(s, a), []);
  }

  lemma Next(s: System, actions: seq<Action>, a: Action)
    requires GoesOn(s, actions) && Enabled(Then(s, actions), a) && !BringsAStart(a)
    ensures GoesOn(s, actions + [a]) && Then(s, actions + [a]) == Do(Then(s, actions), a)
  {
    OneStep(Then(s, actions), a);
    GoesOnFurther(s, actions, [a]);
  }

  /** The stop of a call: it takes the entry and kills the child. */
  lemma StopIsAPath(s: System, t: Table, c: nat) returns (actions: seq<Action>)
    requires Shows(s, t, s.calls) && At(s, c, Waiting) && !s.calls[c].kind.StopAll?
    ensures GoesOn(s, actions)
    ensures Shows(Then(s, actions), Stopped(t, s.calls[c].kind.slug),
                  s.calls[c := s.calls[c].(phase := AfterStop(s.calls[c].kind))])
  {
    var slug := s.calls[c].kind.slug;
    OneStep(s, TakeEntry(c));
    actions := [TakeEntry(c)];
    if slug in s.running {
      Next(s, actions, FinishKill(c));
      actions := actions + [FinishKill(c)];
    } else {
      assert t.running - {slug} == t.running;
    }
  }

  /** A start that runs on its own: the stop, then a child that is registered when it is healthy and
      killed when it is not, or none. */
  lemma StartIsAPath(s: System, t: Table, c: nat, spawned: Option<Pid>, healthy: bool) returns (actions: seq<Action>)
    requires Shows(s, t, s.calls) && At(s, c, Waiting) && s.calls[c].kind.Start?
    requires spawned.Some? ==> spawned.value !in s.slugOf && spawned.value !in s.live
    ensures GoesOn(s, actions)
    ensures Shows(Then(s, actions), Started(t, s.calls[c].kind.slug, spawned, healthy),
                  s.calls[c := s.calls[c].(phase := Finished)])
  {
    actions := StopIsAPath(s, t, c);
    if spawned.None? {
      Next(s, actions, SpawnFails(c));
      actions := actions + [SpawnFails(c)];
    } else {
      var last := if healthy then Insert(c) else Discard(c);
      Next(s, actions, Spawn(c, spawned.value));
      actions := actions + [Spawn(c, spawned.value)];
      Next(s, actions, Probe(c, healthy));
      actions := actions + [Probe(c, healthy)];
      Next(s, actions, last);
      actions := actions + [last];
    }
  }

  lemma {:induction false} SweepIsAPath(s: System, c: nat, left: set<Slug>) returns (actions: seq<Action>)
    requires At(s, c, Sweeping) && left <= s.running.Keys
    ensures GoesOn(s, actions)
    ensures Then(s, actions) == s.(live := s.live - set slug | slug in left :: s.running[slug])
    decreases |left|
  {
    actions := [];
    if left != {} {
      var slug :| slug in left;
      var swept := Do(s, SweepOne(c, slug));
      OneStep(s, SweepOne(c, slug));
      var rest := SweepIsAPath(swept, c, left - {slug});
      GoesOnFurther(s, [SweepOne(c, slug)], rest);
      actions := [SweepOne(c, slug)] + rest;
      assert left == (left - {slug}) + {slug};
    }
  }

  /** A `stop_all` that runs on its own kills every registered child and forgets them. */
  lemma StopAllIsAPath(s: System, t: Table, c: nat) returns (actions: seq<Action>)
    requires Shows(s, t, s.calls) && At(s, c, Waiting) && s.calls[c].kind.StopAll?
    ensures GoesOn(s, actions)
    ensures Shows(Then(s, actions), AllStopped(t), s.calls[c := s.calls[c].(phase := Finished)])
  {
    OneStep(s, BeginSweep(c));
    var begun := Do(s, BeginSweep(c));
    var sweep := SweepIsAPath(begun, c, begun.running.Keys);
    GoesOnFurther(s, [BeginSweep(c)], sweep);
    assert (set slug | slug in begun.running.Keys :: begun.running[slug]) == t.running.Values;
    actions := [BeginSweep(c)] + sweep;
    Next(s, actions, EndSweep(c));
    actions := actions + [EndSweep(c)];
  }

  // ---------------------------------------------------------------------------- the code

  /** `PluginProcesses`, one call at a time. */
  class Processes {
    var running: map<Slug, Pid>
    var live: set<Pid>
    ghost var slugOf: map<Pid, Slug>

    /** Between calls every live child is in the map, under its own slug. */
    ghost predicate Valid()
      reads this
    {
      && live <= slugOf.Keys
      && (forall slug :: slug in running ==> running[slug] in slugOf && slugOf[running[slug]] == slug)
      && (forall pid :: pid in live ==> slugOf[pid] in running && running[slugOf[pid]] == pid)
    }

    ghost function Value(): Table
      reads this
    {
      Table(running, live, slugOf)
    }

    constructor ()
      ensures Valid() && running == map[]
    {
      running, live, slugOf := map[], {}, map[];
    }

    /** `stop`. */
    method StopOne(slug: Slug)
      requires Valid()
      modifies this
      ensures Valid() && Value() == Stopped(old(Value()), slug)
      ensures slugOf == old(slugOf)
      ensures running == old(running) - {slug}
      ensures live == old(live) - EntryOf(old(running), slug)
    {
      if slug in running {
        var pid := running[slug];
        running := running - {slug};
        live := live - {pid};
      }
    }

    /** `start`: `spawned` is the new child, if it could be launched, and `healthy` whether it
        answered. Either the slug has this child and no other, or it has none. */
    method StartOne(slug: Slug, spawned: Option<Pid>, healthy: bool) returns (ok: bool)
      requires Valid() && (spawned.Some? ==> spawned.value !in slugOf)
      modifies this
      ensures Valid() && ok == (spawned.Some? && healthy)
      ensures Value() == Started(old(Value()), slug, spawned, healthy)
      ensures running == if ok then old(running)[slug := spawned.value] else old(running) - {slug}
      ensures live == old(live) - EntryOf(old(running), slug) + (if ok then {spawned.value} else {})
    {
      StopOne(slug);
      if spawned.None? {
        return false;
      }
      live, slugOf := live + {spawned.value}, slugOf[spawned.value := slug];
      if !healthy {
        live := live - {spawned.value};
        return false;
      }
      running := running[slug := spawned.value];
      ok := true;
    }

    /** `stop_all`: kills the children one after the other, then forgets them. */
    method StopEverything()
      requires Valid()
      modifies this
      ensures Valid() && running == map[] && live == {}
      ensures Value() == AllStopped(old(Value()))
    {
      var left := running.Keys;
      while left != {}
        invariant left <= running.Keys && running == old(running) && slugOf == old(slugOf)
        invariant live == set pid | pid in old(live) && slugOf[pid] in left
        decreases |left|
      {
        var slug :| slug in left;
        live := live - {running[slug]};
        left := left - {slug};
      }
      running := map[];
    }
  }
}
