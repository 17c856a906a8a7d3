/**
 The client's WebSocket keepalive: an interval that pings, a timeout that closes the socket
 when no pong arrives, and the handlers that arm and clear them. Timers are exact: time does
 not pass a timer that is due.
*/
module Keepalive {
  import opened Wrappers

  const PING_INTERVAL_MS: nat := 30000
  const PONG_TIMEOUT_MS: nat := 10000

  datatype ReadyState = Connecting | Open | Closing | Closed

  datatype Timer = Interval(due: nat) | Timeout(due: nat)

  /** What happened on the connection, in order. */
  datatype Entry =
    | PingSent(at: nat)
    | Acked(at: nat)
    | Ponged(at: nat)
    | ForceClosed(at: nat)

  predicate IsSign(e: Entry) {
    e.Acked? || e.Ponged?
  }

  /** The JavaScript timer table, the two variables that name timers, and the history. */
  datatype Socket = Socket(
    ready: ReadyState, now: nat, timers: map<nat, Timer>, nextId: nat,
    pingIntervalId: Option<nat>, pongTimeoutId: Option<nat>, log: seq<Entry>)

  // --------------------------------------------------------------------------- handlers

  function ClearTimer(timers: map<nat, Timer>, id: Option<nat>): map<nat, Timer> {
    if id.Some? then timers - {id.value} else timers
  }

  function ClearKeepaliveTimers(s: Socket): Socket {
    s.(timers := ClearTimer(ClearTimer(s.timers, s.pingIntervalId), s.pongTimeoutId),
       pingIntervalId := None, pongTimeoutId := None)
  }

  function StartKeepalive(s: Socket): Socket {
    var c := ClearKeepaliveTimers(s);
    c.(timers := c.timers[c.nextId := Interval(c.now + PING_INTERVAL_MS)],
       pingIntervalId := Some(c.nextId), nextId := c.nextId + 1)
  }

  /** The interval's callback; the engine has rescheduled the interval. */
  function PingTick(s: Socket): Socket {
    if s.ready != Open then s
    else
      s.(timers := s.timers[s.nextId := Timeout(s.now + PONG_TIMEOUT_MS)],
         pongTimeoutId := Some(s.nextId), nextId := s.nextId + 1, log := s.log + [PingSent(s.now)])
  }

  /** The timeout's callback: `socket.close(4000, ...)`, which only an open socket heeds. */
  function PongMissed(s: Socket): Socket {
    if s.ready != Open then s else s.(ready := Closing, log := s.log + [ForceClosed(s.now)])
  }

  function OnAck(s: Socket): Socket {
    StartKeepalive(s.(log := s.log + [Acked(s.now)]))
  }

  function OnPong(s: Socket): Socket {
    s.(timers := ClearTimer(s.timers, s.pongTimeoutId), pongTimeoutId := None, log := s.log + [Ponged(s.now)])
  }

  /** `socket.close()` from the `complete` message or from `unsubscribe`. */
  function RequestClose(s: Socket): Socket {
    if s.ready == Open || s.ready == Connecting then s.(ready := Closing) else s
  }

  function OnClose(s: Socket): Socket {
    ClearKeepaliveTimers(s.(ready := Closed))
  }

  /** The engine runs a timer that is due: an interval is rescheduled, a timeout is spent. */
  function Fired(s: Socket, id: nat): Socket
    requires id in s.timers
  {
    match s.timers[id]
    case Interval(due) => PingTick(s.(timers := s.timers[id := Interval(due + PING_INTERVAL_MS)]))
    case Timeout(_) => PongMissed(s.(timers := s.timers - {id}))
  }

  // --------------------------------------------------------------------------- timed runs

  datatype Event =
    | Opened
    | AckReceived
    | PongReceived
    | OtherMessage
    | CloseRequested
    | CloseEvent
    | Fire(id: nat)
    | Pass(until: nat)

  /** Messages reach an open socket only, and time stops at every timer that is due. */
  ghost predicate Enabled(s: Socket, e: Event) {
    match e
    case Opened => s.ready == Connecting
    case AckReceived => s.ready == Open
    case PongReceived => s.ready == Open
    case OtherMessage => s.ready == Open
    case CloseRequested => true
    case CloseEvent => s.ready != Closed
    case Fire(id) => id in s.timers && s.timers[id].due == s.now
    case Pass(until) => s.now < until && forall id :: id in s.timers ==> until <= s.timers[id].due
  }

  function After(s: Socket, e: Event): Socket
    requires e.Fire? ==> e.id in s.timers
  {
    match e
    case Opened => s.(ready := Open)
    case AckReceived => OnAck(s)
    case PongReceived => OnPong(s)
    case OtherMessage => s
    case CloseRequested => RequestClose(s)
    case CloseEvent => OnClose(s)
    case Fire(id) => Fired(s, id)
    case Pass(until) => s.(now := until)
  }

  datatype Run = Run(states: seq<Socket>, events: seq<Event>)

  predicate Fresh(s: Socket) {
    s.ready == Connecting && s.timers == map[] && s.pingIntervalId == None && s.pongTimeoutId == None && s.log == []
  }

  ghost predicate IsRun(run: Run) {
    && |run.states| == |run.events| + 1
    && Fresh(run.states[0])
    && forall i :: 0 <= i < |run.events| ==>
         Enabled(run.states[i], run.events[i]) && run.states[i + 1] == After(run.states[i], run.events[i])
  }

  // ----------------------------------------------------------------------------- history

  /** The latest ping, if no sign of life has followed it. */
  function Unanswered(log: seq<Entry>): Option<nat> {
    if log == [] then None
    else
      var last := log[|log| - 1];
      if last.PingSent? then Some(last.at)
      else if IsSign(last) then None
      else Unanswered(log[..|log| - 1])
  }

  /** When the peer last gave a sign of life. */
  function LastSign(log: seq<Entry>): Option<nat> {
    if log == [] then None
    else
      var last := log[|log| - 1];
      if IsSign(last) then Some(last.at) else LastSign(log[..|log| - 1])
  }

  predicate HasAck(log: seq<Entry>) {
    exists i :: 0 <= i < |log| && log[i].Acked?
  }

  ghost predicate ClosesAreEarned(log: seq<Entry>) {
    forall k :: 0 <= k < |log| && log[k].ForceClosed? ==> IsEarned(log, k)
  }

  /** A ping sent exactly the timeout earlier is still unanswered. */
  ghost predicate IsEarned(log: seq<Entry>, k: nat)
    requires k < |log|
  {
    PONG_TIMEOUT_MS <= log[k].at && Unanswered(log[..k]) == Some(log[k].at - PONG_TIMEOUT_MS)
  }

  lemma SignsGrow(log: seq<Entry>, e: Entry)
    ensures Unanswered(log + [e]) == if e.PingSent? then Some(e.at) else if IsSign(e) then None else Unanswered(log)
    ensures LastSign(log + [e]) == if IsSign(e) then Some(e.at) else LastSign(log)
  {
    assert (log + [e])[..|log|] == log;
  }

  lemma AcksGrow(log: seq<Entry>, e: Entry)
    ensures HasAck(log + [e]) <==> HasAck(log) || e.Acked?
  {
    var longer := log + [e];
    if i :| 0 <= i < |log| && log[i].Acked? {
      assert longer[i].Acked?;
    }
    if e.Acked? {
      assert longer[|log|].Acked?;
    }
  }

  lemma ClosesGrow(log: seq<Entry>, e: Entry)
    requires ClosesAreEarned(log)
    requires e.ForceClosed? ==> PONG_TIMEOUT_MS <= e.at && Unanswered(log) == Some(e.at - PONG_TIMEOUT_MS)
    ensures ClosesAreEarned(log + [e])
  {
    var longer := log + [e];
    forall k | 0 <= k < |longer| && longer[k].ForceClosed? ensures IsEarned(longer, k) {
      if k < |log| {
        assert IsEarned(log, k);
        assert longer[k] == log[k] && longer[..k] == log[..k];
      } else {
        assert longer[..k] == log;
      }
    }
  }

  lemma HistoryGrows(log: seq<Entry>, e: Entry)
    requires ClosesAreEarned(log)
    requires e.ForceClosed? ==> PONG_TIMEOUT_MS <= e.at && Unanswered(log) == Some(e.at - PONG_TIMEOUT_MS)
    ensures Unanswered(log + [e]) == if e.PingSent? then Some(e.at) else if IsSign(e) then None else Unanswered(log)
    ensures LastSign(log + [e]) == if IsSign(e) then Some(e.at) else LastSign(log)
    ensures HasAck(log + [e]) <==> HasAck(log) || e.Acked?
    ensures ClosesAreEarned(log + [e])
  {
    SignsGrow(log, e);
    AcksGrow(log, e);
    ClosesGrow(log, e);
  }

  // -------------------------------------------------------------------------- invariants

  predicate PongTimerLive(s: Socket) {
    s.pongTimeoutId.Some? && s.pongTimeoutId.value in s.timers
  }

  /** Every live timer is one that its variable still names, and none is overdue. */
  ghost predicate TimersOk(s: Socket) {
    && (forall id :: id in s.timers ==> id < s.nextId && s.now <= s.timers[id].due)
    && (forall id :: id in s.timers && s.timers[id].Interval? ==> s.pingIntervalId == Some(id))
    && (forall id :: id in s.timers && s.timers[id].Timeout? ==> s.pongTimeoutId == Some(id))
    && (s.pingIntervalId.Some? ==> s.pingIntervalId.value in s.timers && s.timers[s.pingIntervalId.value].Interval?)
    && (s.pongTimeoutId.Some? ==> s.pongTimeoutId.value < s.nextId && s.pongTimeoutId != s.pingIntervalId)
    && (s.ready == Connecting || s.ready == Closed ==> s.timers == map[] && s.pingIntervalId == None)
    && (s.ready == Closed ==> s.pongTimeoutId == None)
  }

  /** The pong timer belongs to the latest ping, and expires before the next one. */
  ghost predicate PongOk(s: Socket) {
    PongTimerLive(s) ==>
      var due := s.timers[s.pongTimeoutId.value].due;
      && Unanswered(s.log).Some? && due == Unanswered(s.log).value + PONG_TIMEOUT_MS
      && s.pingIntervalId.Some? && s.pingIntervalId.value in s.timers
      && s.timers[s.pingIntervalId.value].due == Unanswered(s.log).value + PING_INTERVAL_MS
  }

  ghost predicate OpenOk(s: Socket) {
    s.ready == Open ==>
      && (Unanswered(s.log).Some? ==> PongTimerLive(s))
      && (HasAck(s.log) <==> s.pingIntervalId.Some?)
      && (HasAck(s.log) ==>
           && LastSign(s.log).Some? && s.pingIntervalId.value in s.timers
           && var sign := LastSign(s.log).value;
              if PongTimerLive(s) then s.timers[s.pongTimeoutId.value].due <= sign + PING_INTERVAL_MS + PONG_TIMEOUT_MS
              else s.timers[s.pingIntervalId.value].due <= sign + PING_INTERVAL_MS)
  }

  ghost predicate HistoryOk(s: Socket) {
    && ClosesAreEarned(s.log)
    && (Unanswered(s.log).Some? ==> Unanswered(s.log).value <= s.now)
    && (LastSign(s.log).Some? ==> LastSign(s.log).value <= s.now)
    && (s.ready == Connecting ==> s.log == [])
  }

  ghost predicate Inv(s: Socket) {
    TimersOk(s) && PongOk(s) && OpenOk(s) && HistoryOk(s)
  }

  lemma AckKeepsInv(s: Socket)
    requires Inv(s) && s.ready == Open
    ensures Inv(OnAck(s))
  {
    HistoryGrows(s.log, Acked(s.now));
  }

  lemma PongKeepsInv(s: Socket)
    requires Inv(s) && s.ready == Open
    ensures Inv(OnPong(s))
  {
    HistoryGrows(s.log, Ponged(s.now));
  }

  lemma CloseKeepsInv(s: Socket)
    requires Inv(s)
    ensures Inv(RequestClose(s)) && Inv(OnClose(s))
  {
  }

  lemma IntervalKeepsInv(s: Socket, id: nat)
    requires Inv(s) && Enabled(s, Fire(id)) && s.timers[id].Interval?
    ensures Inv(Fired(s, id))
  {
    HistoryGrows(s.log, PingSent(s.now));
    assert !PongTimerLive(s);
  }

  lemma TimeoutKeepsInv(s: Socket, id: nat)
    requires Inv(s) && Enabled(s, Fire(id)) && s.timers[id].Timeout?
    ensures Inv(Fired(s, id))
  {
    if s.ready == Open {
      HistoryGrows(s.log, ForceClosed(s.now));
    }
  }

  lemma StepKeepsInv(s: Socket, e: Event)
    requires Inv(s) && Enabled(s, e)
    ensures Inv(After(s, e))
  {
    match e
    case Opened =>
    case AckReceived => AckKeepsInv(s);
    case PongReceived => PongKeepsInv(s);
    case OtherMessage =>
    case CloseRequested => CloseKeepsInv(s);
    case CloseEvent => CloseKeepsInv(s);
    case Fire(id) =>
      if s.timers[id].Interval? {
        IntervalKeepsInv(s, id);
      } else {
        TimeoutKeepsInv(s, id);
      }
    case Pass(_) =>
  }

  lemma {:induction false} RunKeepsInv(run: Run, i: nat)
    requires IsRun(run) && i < |run.states|
    ensures Inv(run.states[i])
  {
    if i > 0 {
      RunKeepsInv(run, i - 1);
      StepKeepsInv(run.states[i - 1], run.events[i - 1]);
      assert run.states[(i - 1) + 1] == After(run.states[i - 1], run.events[i - 1]);
    }
  }

  // ------------------------------------------------------------------ theorems over runs

  lemma AtMostOnePongTimer(run: Run, i: nat, a: nat, b: nat)
    requires IsRun(run) && i < |run.states|
    requires a in run.states[i].timers && run.states[i].timers[a].Timeout?
    requires b in run.states[i].timers && run.states[i].timers[b].Timeout?
    ensures a == b
  {
    RunKeepsInv(run, i);
  }

  lemma NoTimerSurvivesTheCloseEvent(run: Run, i: nat, k: nat)
    requires IsRun(run) && i < k < |run.states| && run.events[i] == CloseEvent
    ensures run.states[k].ready == Closed && run.states[k].timers == map[]
  {
    ClosedStaysClosed(run, i, k);
    RunKeepsInv(run, k);
  }

  lemma {:induction false} ClosedStaysClosed(run: Run, i: nat, k: nat)
    requires IsRun(run) && i < k < |run.states| && run.events[i] == CloseEvent
    ensures run.states[k].ready == Closed
    decreases k
  {
    assert run.states[(k - 1) + 1] == After(run.states[k - 1], run.events[k - 1]);
    if i < k - 1 {
      ClosedStaysClosed(run, i, k - 1);
      RunKeepsInv(run, k - 1);
    }
  }

  /** A sign of life strictly between two positions of the history. */
  ghost predicate SignBetween(log: seq<Entry>, i: nat, k: nat) {
    exists j :: i < j < k && j < |log| && IsSign(log[j])
  }

  lemma {:induction false} UnansweredPing(log: seq<Entry>) returns (i: nat)
    requires Unanswered(log).Some?
    ensures i < |log| && log[i] == PingSent(Unanswered(log).value)
    ensures !SignBetween(log, i, |log|)
  {
    var n := |log| - 1;
    if log[n].PingSent? {
      i := n;
    } else {
      i := UnansweredPing(log[..n]);
      forall j | i < j < |log| ensures !IsSign(log[j]) {
        if j < n {
          assert !SignBetween(log[..n], i, n);
          assert !IsSign(log[..n][j]);
        }
      }
    }
  }

  /** A socket is only ever force-closed by a ping that went out exactly the timeout earlier
      and has had no pong and no ack since. */
  lemma ForceCloseMeansSilence(run: Run, i: nat, k: nat) returns (ping: nat)
    requires IsRun(run) && i < |run.states|
    requires k < |run.states[i].log| && run.states[i].log[k].ForceClosed?
    ensures ping < k && PONG_TIMEOUT_MS <= run.states[i].log[k].at
    ensures run.states[i].log[ping] == PingSent(run.states[i].log[k].at - PONG_TIMEOUT_MS)
    ensures !SignBetween(run.states[i].log, ping, k)
  {
    RunKeepsInv(run, i);
    var log := run.states[i].log;
    assert IsEarned(log, k);
    ping := UnansweredPing(log[..k]);
    forall j | ping < j < k ensures !IsSign(log[j]) {
      assert log[..k][j] == log[j];
    }
  }

  /** The peer answers every ping before its timeout is up. */
  ghost predicate Responsive(log: seq<Entry>) {
    forall i, k :: 0 <= i < k < |log| && log[i].PingSent? && log[i].at + PONG_TIMEOUT_MS <= log[k].at ==>
      SignBetween(log, i, k)
  }

  lemma NoForceCloseIsLogged(run: Run, i: nat, k: nat)
    requires IsRun(run) && i < |run.states| && Responsive(run.states[i].log)
    requires k < |run.states[i].log|
    ensures !run.states[i].log[k].ForceClosed?
  {
    var log := run.states[i].log;
    if log[k].ForceClosed? {
      var ping := ForceCloseMeansSilence(run, i, k);
      assert false;
    }
  }

  /** What a step adds to the history. */
  lemma HistoryOfAStep(run: Run, i: nat)
    requires IsRun(run) && i < |run.events|
    ensures
      var (s, e) := (run.states[i], run.events[i]);
      run.states[i + 1].log == s.log +
        if e.AckReceived? then [Acked(s.now)]
        else if e.PongReceived? then [Ponged(s.now)]
        else if e.Fire? && s.ready == Open then [if s.timers[e.id].Interval? then PingSent(s.now) else ForceClosed(s.now)]
        else []
  {
    assert Enabled(run.states[i], run.events[i]) && run.states[i + 1] == After(run.states[i], run.events[i]);
  }

  predicate AsksToClose(e: Event) {
    e.CloseRequested? || e.CloseEvent?
  }

  predicate FiresTimeout(s: Socket, e: Event) {
    e.Fire? && e.id in s.timers && s.timers[e.id].Timeout?
  }

  /** An open socket leaves that state exactly by a request to close, the close event, or a timeout;
      and a timeout fires exactly that long after a ping that is still unanswered. */
  lemma LeavesOpenIff(run: Run, i: nat)
    requires IsRun(run) && i < |run.events| && run.states[i].ready == Open
    ensures
      var (s, e) := (run.states[i], run.events[i]);
      && (run.states[i + 1].ready != Open <==> AsksToClose(e) || FiresTimeout(s, e))
      && (run.states[i + 1].ready != Open ==> run.states[i + 1].ready == if e.CloseEvent? then Closed else Closing)
      && (FiresTimeout(s, e) ==> PONG_TIMEOUT_MS <= s.now && Unanswered(s.log) == Some(s.now - PONG_TIMEOUT_MS))
  {
    RunKeepsInv(run, i);
    assert Enabled(run.states[i], run.events[i]) && run.states[i + 1] == After(run.states[i], run.events[i]);
  }

  lemma {:induction false} HistoryGrowsOverARun(run: Run, i: nat, k: nat)
    requires IsRun(run) && i <= k < |run.states|
    ensures run.states[i].log <= run.states[k].log
    decreases k
  {
    if i < k {
      HistoryGrowsOverARun(run, i, k - 1);
      HistoryOfAStep(run, k - 1);
      assert run.states[(k - 1) + 1] == run.states[k];
    }
  }

  lemma EarlierResponsive(early: seq<Entry>, log: seq<Entry>)
    requires early <= log && Responsive(log)
    ensures Responsive(early)
  {
    forall i, k | 0 <= i < k < |early| && early[i].PingSent? && early[i].at + PONG_TIMEOUT_MS <= early[k].at
      ensures SignBetween(early, i, k)
    {
      assert log[i] == early[i] && log[k] == early[k];
      assert SignBetween(log, i, k);
      var j :| i < j < k && j < |log| && IsSign(log[j]);
      assert IsSign(early[j]);
    }
  }

  /** While its peer answers each ping in time, an open socket stays open until it is asked to
      close. */
  lemma {:induction false} ResponsivePeerIsNeverForceClosed(run: Run, i: nat, k: nat)
    requires IsRun(run) && i <= k < |run.states| && run.states[i].ready == Open
    requires Responsive(run.states[k].log)
    requires forall n :: i <= n < k ==> !AsksToClose(run.events[n])
    ensures run.states[k].ready == Open
    decreases k
  {
    if i < k {
      var before := run.states[k - 1];
      HistoryGrowsOverARun(run, k - 1, k);
      EarlierResponsive(before.log, run.states[k].log);
      ResponsivePeerIsNeverForceClosed(run, i, k - 1);
      LeavesOpenIff(run, k - 1);
      HistoryOfAStep(run, k - 1);
      assert run.states[(k - 1) + 1] == run.states[k];
      assert !AsksToClose(run.events[k - 1]);
      if FiresTimeout(before, run.events[k - 1]) {
        NoForceCloseIsLogged(run, k, |before.log|);
      }
    }
  }

  /** The latest ping or acknowledgement. */
  function Beat(log: seq<Entry>): Option<nat> {
    if log == [] then None
    else if log[|log| - 1].PingSent? || log[|log| - 1].Acked? then Some(log[|log| - 1].at)
    else Beat(log[..|log| - 1])
  }

  lemma BeatGrows(log: seq<Entry>, e: Entry)
    ensures Beat(log + [e]) == if e.PingSent? || e.Acked? then Some(e.at) else Beat(log)
  {
    assert (log + [e])[..|log|] == log;
  }

  /** While a socket is open the interval runs from the latest ping or acknowledgement. */
  ghost predicate OnTheBeat(s: Socket) {
    s.ready == Open && HasAck(s.log) ==>
      && Beat(s.log).Some? && s.pingIntervalId.Some? && s.pingIntervalId.value in s.timers
      && s.timers[s.pingIntervalId.value] == Interval(Beat(s.log).value + PING_INTERVAL_MS)
  }

  lemma AckKeepsTheBeat(s: Socket)
    requires Inv(s)
    ensures OnTheBeat(OnAck(s))
  {
    BeatGrows(s.log, Acked(s.now));
  }

  lemma PongKeepsTheBeat(s: Socket)
    requires Inv(s) && OnTheBeat(s)
    ensures OnTheBeat(OnPong(s))
  {
    BeatGrows(s.log, Ponged(s.now));
    AcksGrow(s.log, Ponged(s.now));
  }

  lemma IntervalKeepsTheBeat(s: Socket, id: nat)
    requires Inv(s) && OnTheBeat(s) && Enabled(s, Fire(id)) && s.timers[id].Interval?
    ensures OnTheBeat(Fired(s, id))
  {
    BeatGrows(s.log, PingSent(s.now));
    AcksGrow(s.log, PingSent(s.now));
  }

  lemma StepKeepsTheBeat(s: Socket, e: Event)
    requires Inv(s) && OnTheBeat(s) && Enabled(s, e)
    ensures OnTheBeat(After(s, e))
  {
    match e
    case Opened =>
    case AckReceived => AckKeepsTheBeat(s);
    case PongReceived => PongKeepsTheBeat(s);
    case OtherMessage =>
    case CloseRequested =>
    case CloseEvent =>
    case Fire(id) =>
      if s.timers[id].Interval? {
        IntervalKeepsTheBeat(s, id);
      }
    case Pass(_) =>
  }

  lemma {:induction false} RunKeepsTheBeat(run: Run, i: nat)
    requires IsRun(run) && i < |run.states|
    ensures OnTheBeat(run.states[i])
  {
    if i > 0 {
      RunKeepsTheBeat(run, i - 1);
      RunKeepsInv(run, i - 1);
      var (s, e) := (run.states[i - 1], run.events[i - 1]);
      assert Enabled(s, e) && run.states[(i - 1) + 1] == After(s, e);
      StepKeepsTheBeat(s, e);
    }
  }

  /** Pings go out exactly one interval after the acknowledgement or the ping before, and none is
      late. */
  lemma PingsEveryInterval(run: Run, i: nat)
    requires IsRun(run) && i < |run.states| && run.states[i].ready == Open && HasAck(run.states[i].log)
    ensures Beat(run.states[i].log).Some?
    ensures run.states[i].now <= Beat(run.states[i].log).value + PING_INTERVAL_MS
    ensures i < |run.events| && run.states[i + 1].log == run.states[i].log + [PingSent(run.states[i].now)] ==>
      run.states[i].now == Beat(run.states[i].log).value + PING_INTERVAL_MS
  {
    RunKeepsInv(run, i);
    RunKeepsTheBeat(run, i);
    if i < |run.events| && run.states[i + 1].log == run.states[i].log + [PingSent(run.states[i].now)] {
      HistoryOfAStep(run, i);
      assert Enabled(run.states[i], run.events[i]);
      assert run.states[i + 1].log[|run.states[i].log|] == PingSent(run.states[i].now);
    }
  }

  /** Once acknowledged, a connection that is still open has given a sign of life at most the
      interval and the timeout ago, and an unanswered ping is at most the timeout old. */
  lemma SilentConnectionIsClosedInTime(run: Run, i: nat)
    requires IsRun(run) && i < |run.states|
    requires run.states[i].ready == Open && HasAck(run.states[i].log)
    ensures LastSign(run.states[i].log).Some?
    ensures run.states[i].now <= LastSign(run.states[i].log).value + PING_INTERVAL_MS + PONG_TIMEOUT_MS
    ensures Unanswered(run.states[i].log).Some? ==>
              run.states[i].now <= Unanswered(run.states[i].log).value + PONG_TIMEOUT_MS
  {
    RunKeepsInv(run, i);
  }

  /** The deadline is met by running timers, not by stopping the clock: at any moment a due
      timer can run or time can pass. */
  lemma TimeIsNeverStuck(run: Run, i: nat)
    requires IsRun(run) && i < |run.states|
    ensures (exists id :: Enabled(run.states[i], Fire(id))) || Enabled(run.states[i], Pass(run.states[i].now + 1))
  {
    RunKeepsInv(run, i);
    var s := run.states[i];
    if id :| id in s.timers && s.timers[id].due == s.now {
      assert Enabled(s, Fire(id));
    }
  }

  // ---------------------------------------------------------------------------- the code

  /** The variables of `attemptWebsocketConnect` and the closures over them. */
  class KeepaliveSocket {
    var ready: ReadyState
    var now: nat
    var timers: map<nat, Timer>
    var nextId: nat
    var pingIntervalId: Option<nat>
    var pongTimeoutId: Option<nat>
    ghost var log: seq<Entry>

    constructor (now: nat)
      ensures Fresh(Value())
    {
      this.ready, this.now, this.timers, this.nextId := Connecting, now, map[], 0;
      this.pingIntervalId, this.pongTimeoutId, this.log := None, None, [];
    }

    ghost function Value(): Socket
      reads this
    {
      Socket(ready, now, timers, nextId, pingIntervalId, pongTimeoutId, log)
    }

    method ClearTimers()
      modifies this
      ensures Value() == ClearKeepaliveTimers(old(Value()))
    {
      if pingIntervalId.Some? {
        timers := timers - {pingIntervalId.value};
        pingIntervalId := None;
      }
      if pongTimeoutId.Some? {
        timers := timers - {pongTimeoutId.value};
        pongTimeoutId := None;
      }
    }

    method SetTimer(timer: Timer) returns (id: nat)
      modifies this`timers, this`nextId
      ensures id == old(nextId) && nextId == id + 1 && timers == old(timers)[id := timer]
    {
      id := nextId;
      timers, nextId := timers[id := timer], nextId + 1;
    }

    method Start()
      modifies this
      ensures Value() == StartKeepalive(old(Value()))
    {
      ClearTimers();
      var id := SetTimer(Interval(now + PING_INTERVAL_MS));
      pingIntervalId := Some(id);
    }

    method OnInterval()
      modifies this
      ensures Value() == PingTick(old(Value()))
    {
      if ready != Open {
        return;
      }
      log := log + [PingSent(now)];
      var id := SetTimer(Timeout(now + PONG_TIMEOUT_MS));
      pongTimeoutId := Some(id);
    }

    method OnTimeout()
      modifies this
      ensures Value() == PongMissed(old(Value()))
    {
      if ready == Open {
        ready := Closing;
        log := log + [ForceClosed(now)];
      }
    }

    method HandleAck()
      modifies this
      ensures Value() == OnAck(old(Value()))
    {
      log := log + [Acked(now)];
      Start();
    }

    method HandlePong()
      modifies this
      ensures Value() == OnPong(old(Value()))
    {
      log := log + [Ponged(now)];
      if pongTimeoutId.Some? {
        timers := timers - {pongTimeoutId.value};
        pongTimeoutId := None;
      }
    }

    method HandleClose()
      modifies this
      ensures Value() == OnClose(old(Value()))
    {
      ready := Closed;
      ClearTimers();
    }
  }
}
