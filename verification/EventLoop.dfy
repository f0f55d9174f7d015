/** The event loop of the daemon: whatever happens to the schedulers happens as a sequence of
    events, each handled to the end before the next one. */
module EventLoop {
  import opened Wrappers
  import opened ProgramTypes
  import opened Processes
  import opened Scheduling
  import opened SchedulerWorld

  datatype Event =
    | Define(id: nat, display: bool, startMode: StartMode, continueAfterError: bool, startInterval: nat)
    | Update(s: Scheduler, tryStart: bool, turn: Turn)
    | SetSchedule(s: Scheduler, startMode: StartMode, continueAfterError: bool, startInterval: nat, turn: Turn)
    | Continue(s: Scheduler, a: Answers)
    | StartProcess(s: Scheduler, a: Answers)
    | Shutdown(s: Scheduler, a: Answers)
    | TimerExpired(s: Scheduler, a: Answers)
    | CronNotified(id: nat, a: Answers)
    | ChildWaited(s: Scheduler, p: Process, status: WaitStatus, waited: bool, written: bool)
    | ProcessChanged(s: Scheduler, p: Process, a: Answers)
    | Tick(found: bool, answers: Scheduler -> Answers)
    | Connect(turns: Scheduler -> Turn)
    | Disconnect

  /** The event can happen now. */
  predicate Possible(w: World, e: Event)
    reads w, w.schedulers, w.daemon, w.monitor, if e.ChildWaited? || e.ProcessChanged? then {e.p} else {}
  {
    match e
    case Define(id, _, _, _, _) => forall t | t in w.schedulers :: t.id != id
    case Update(s, tryStart, _) => s in w.schedulers
    case SetSchedule(s, _, _, _, _) => s in w.schedulers && w.daemon.connected
    case Continue(s, _) => s in w.schedulers && w.daemon.connected
    case StartProcess(s, _) => s in w.schedulers
    case Shutdown(s, _) => s in w.schedulers
    case TimerExpired(s, _) => s in w.schedulers && s.timer != Off
    case CronNotified(_, _) => true
    case ChildWaited(s, p, _, _, _) => s in w.schedulers && p in s.spawned && p.waiting
    case ProcessChanged(s, p, _) => s in w.schedulers && p in s.spawned && p.pipe != []
    case Tick(_, _) => w.monitor.present && w.monitor.waiting
    case Connect(_) => !w.daemon.connected
    case Disconnect => true
  }

  /** The event makes a scheduler spawn a process although it was shut down: a client asks for it,
      and there is no live process. */
  predicate SpawnsFor(e: Event, s: Scheduler)
    reads s, if s.last.Some? then {s.last.value} else {}
  {
    e.StartProcess? && e.s == s && !s.Busy() && e.a.Spawns()
  }

  lemma ShutDownIsStopped(w: World)
    requires w.Sound()
    ensures forall s | s in w.schedulers && s.shutdown :: s.state.Stopped? && s !in w.monitor.observers
  {
    hide World.Apart, World.CallbacksOk, World.Awake, Accounted, CronLinked, OnlyLastAlive, Cron.Valid, Monitor.Valid;
  }

  /** Of the schedulers that were shut down exactly those for which a client asks get another
      process. */
  twostate predicate ShutDownKept(w: World, e: Event)
    reads w, w.schedulers
  {
    forall s | s in old(w.schedulers) && s in w.schedulers && old(s.shutdown) ::
      s.spawned != old(s.spawned) <==> old(SpawnsFor(e, s))
  }

  /** One event, in any valid state of the world. */
  method Handle(w: World, e: Event)
    requires w.Valid() && Possible(w, e)
    modifies w, w.schedulers, w.processes, w.daemon, w.cron, w.monitor
    ensures w.Valid() && w.Onward() && ShutDownKept(w, e)
  {
    hide World.Valid, World.Onward, ShutDownKept;
    if e.Define? || e.Update? || e.SetSchedule? || e.Continue? || e.StartProcess? || e.Shutdown? {
      HandleRequest(w, e);
    } else {
      HandleOther(w, e);
    }
  }

  method HandleRequest(w: World, e: Event)
    requires w.Valid() && Possible(w, e)
    requires e.Define? || e.Update? || e.SetSchedule? || e.Continue? || e.StartProcess? || e.Shutdown?
    modifies w, w.schedulers, w.processes, w.daemon, w.cron, w.monitor
    ensures w.Valid() && w.Onward() && ShutDownKept(w, e)
  {
    hide World.Sound;
    ShutDownIsStopped(w);
    match e
    case Define(id, display, startMode, continueAfterError, startInterval) =>
      var s := w.Register(id, display, startMode, continueAfterError, startInterval);
    case Update(s, tryStart, turn) => w.Updated(s, tryStart, turn);
    case SetSchedule(s, startMode, continueAfterError, startInterval, turn) =>
      w.SetSchedule(s, startMode, continueAfterError, startInterval, turn);
    case Continue(s, a) => w.Continue(s, a);
    case StartProcess(s, a) => w.StartProcess(s, a);
    case Shutdown(s, a) => w.Shutdown(s, a);
  }

  method HandleOther(w: World, e: Event)
    requires w.Valid() && Possible(w, e)
    requires !(e.Define? || e.Update? || e.SetSchedule? || e.Continue? || e.StartProcess? || e.Shutdown?)
    modifies w, w.schedulers, w.processes, w.daemon, w.cron, w.monitor
    ensures w.Valid() && w.Onward() && ShutDownKept(w, e)
  {
    hide World.Sound;
    ShutDownIsStopped(w);
    match e
    case TimerExpired(s, a) => w.TimerExpired(s, a);
    case CronNotified(id, a) => w.CronNotified(id, a);
    case ChildWaited(s, p, status, waited, written) =>
      w.Member(s);
      w.ChildWaited(s, p, status, waited, written);
    case ProcessChanged(s, p, a) =>
      w.Member(s);
      w.ProcessChanged(s, p, a);
    case Tick(found, answers) => ghost var called := w.Tick(found, answers);
    case Connect(turns) => w.Connect(turns);
    case Disconnect => w.Disconnect();
  }

  /** A whole run of the daemon. Whatever happens, in whatever order, as long as each event can
      happen when it comes, every state on the way is valid, and shutting down, the death of a
      process and the stages of an observer are final. Once shut down, a scheduler only gets
      another process when a client asks for it. */
  method Run(w: World, events: seq<Event>) returns (handled: nat)
    requires w.Valid()
    modifies w, w.schedulers, w.processes, w.daemon, w.cron, w.monitor
    ensures w.Valid() && w.Onward() && handled <= |events|
    ensures handled < |events| ==> !Possible(w, events[handled])
    ensures forall s | s in old(w.schedulers) && old(s.shutdown) && !Asked(events, handled, s) ::
              s.spawned == old(s.spawned)
  {
    hide World.Valid, Possible, Asked;
    handled := 0;
    while handled < |events|
      invariant handled <= |events| && w.Valid() && w.Onward()
      invariant forall s | s in old(w.schedulers) && old(s.shutdown) && !Asked(events, handled, s) ::
                  s.spawned == old(s.spawned)
    {
      if !Possible(w, events[handled]) {
        return;
      }
      AskedSoFar(events, handled);
      Handle(w, events[handled]);
      handled := handled + 1;
    }
  }

  /** Among the first n events a client asks for a process of this scheduler. */
  ghost predicate Asked(events: seq<Event>, n: nat, s: Scheduler) {
    exists i :: 0 <= i < n <= |events| && events[i].StartProcess? && events[i].s == s
  }

  lemma AskedSoFar(events: seq<Event>, n: nat)
    requires n < |events|
    ensures forall s | Asked(events, n, s) || (events[n].StartProcess? && events[n].s == s) :: Asked(events, n + 1, s)
  {
    forall s | Asked(events, n, s) || (events[n].StartProcess? && events[n].s == s)
      ensures Asked(events, n + 1, s)
    {
      var i :| 0 <= i <= n && events[i].StartProcess? && events[i].s == s;
    }
  }

  // ----- what holds at every quiescent point -----

  /** No stalled scheduler: while it is running, whatever will spawn its next process is in
      place, it is not to be shut down, and it does not wait for anything else. In always mode
      that can be the death of its process, which will be reported unless the thread that waits
      for the process gave up. */
  lemma NeverStalls(w: World, s: Scheduler)
    requires w.Valid() && s in w.schedulers && s.state.Running?
    ensures !s.startMode.Never? && !s.shutdown && s.observerState.Finished?
    ensures s.startMode.Always? && s.timer == Off ==> s.Busy() && (!s.last.value.Silent() || s.last.value.gaveUp)
    ensures s.startMode.Interval? && s.startInterval >= 1 ==> s.timer == Periodic(s.startInterval * 1000000)
    ensures s.startMode.Cron? ==> exists e :: e in w.cron.entries && e.programId == s.id && e.notify == s
  {
    hide World.Apart, World.CallbacksOk, World.Awake, Accounted, Cron.Valid, Monitor.Valid, HasEntry;
    assert w.Known(s) && s.Ok();
    LastIsSpawned(s.last, s.spawned);
    if s.Busy() {
      s.last.value.AliveIsReported();
    }
    if s.cronActive {
      FoundEntry(w.cron.entries, s.id);
    }
  }

  lemma FoundEntry(entries: seq<Entry>, id: nat)
    requires HasEntry(entries, id)
    ensures exists e :: e in entries && e.programId == id
  {
    var i: nat :| EntryAt(entries, i, id);
    assert entries[i] in entries;
  }

  /** The cron table holds the identifier of a program exactly when its scheduler says so, and
      notifies that scheduler; it holds no identifier twice. */
  lemma CronTableTellsTheTruth(w: World, s: Scheduler)
    requires w.Valid() && s in w.schedulers
    ensures s.cronActive <==> exists i :: 0 <= i < |w.cron.entries| && w.cron.entries[i].programId == s.id
    ensures forall i, j | 0 <= i < |w.cron.entries| && 0 <= j < |w.cron.entries| ::
              w.cron.entries[i].programId == w.cron.entries[j].programId ==> i == j
    ensures s.cronActive ==> exists e :: e in w.cron.entries && e.programId == s.id && e.notify == s
  {
    hide World.Apart, World.Awake, Accounted, OnlyLastAlive, Monitor.Valid;
    assert w.Known(s) && s.Ok();
    forall i | 0 <= i < |w.cron.entries| && w.cron.entries[i].programId == s.id
      ensures s.cronActive
    {
      assert EntryAt(w.cron.entries, i, s.id);
    }
    if s.cronActive {
      var i: nat :| EntryAt(w.cron.entries, i, s.id);
      assert w.cron.entries[i] in w.cron.entries;
    }
    forall i, j | 0 <= i < |w.cron.entries| && 0 <= j < |w.cron.entries|
      && w.cron.entries[i].programId == w.cron.entries[j].programId
      ensures i == j
    {
      assert EntryAt(w.cron.entries, i, w.cron.entries[i].programId)
             && EntryAt(w.cron.entries, j, w.cron.entries[i].programId);
    }
  }

  /** At most one process of a scheduler is alive, and it is the last one spawned. */
  lemma AtMostOneAlive(w: World, s: Scheduler, p: Process)
    requires w.Valid() && s in w.schedulers && p in s.spawned && p.state.Alive()
    ensures s.last == Some(p) && forall q | q in s.spawned && q.state.Alive() :: q == p
  {
    hide World.Apart, World.CallbacksOk, World.Awake, Accounted, CronLinked, Cron.Valid, Monitor.Valid, Process.Valid;
    assert w.Known(s) && s.Ok();
    assert OnlyLastAlive(s.last, s.spawned);
    assert forall i | 0 <= i < |s.spawned| && s.spawned[i].state.Alive() :: i == |s.spawned| - 1;
  }

  /** Waiting for the observed process means to be registered with the process monitor, which
      is still searching, with some of its timeout left. */
  lemma WaitingMeansObserving(w: World, s: Scheduler)
    requires w.Valid() && s in w.schedulers
    ensures s.observerState.Waiting? <==> exists i :: 0 <= i < |w.monitor.observers| && w.monitor.observers[i] == s
    ensures s.observerState.Waiting? ==> s.state.Stopped? && w.monitor.waiting
                                         && (w.monitor.ticks > 0 ==>
                                             SEARCH_INTERVAL * w.monitor.ticks < w.monitor.timeout)
    ensures forall i, j | 0 <= i < j < |w.monitor.observers| :: w.monitor.observers[i] != w.monitor.observers[j]
  {
    hide World.Apart, World.CallbacksOk, World.Awake, Accounted, CronLinked, OnlyLastAlive, Cron.Valid;
    assert w.Known(s) && s.Ok();
  }

  /** A scheduler that runs although it still waits for Brick Daemon was started by its observer. */
  lemma OnlyObserversStartEarly(w: World, s: Scheduler)
    requires w.Valid() && s in w.schedulers && s.waitingForBrickd && s.state.Running?
    ensures s.calledBack && s.display && !w.daemon.connected
  {
    hide World.Apart, World.CallbacksOk, Accounted, CronLinked, OnlyLastAlive, Cron.Valid, Monitor.Valid;
    assert w.Known(s) && s.Ok();
  }

  /** While Brick Daemon is connected, nobody waits for it who may still start. */
  lemma NobodyWaitsInVain(w: World, s: Scheduler)
    requires w.Valid() && s in w.schedulers && w.daemon.connected && s.waitingForBrickd
    ensures s.shutdown && s.state.Stopped? && !s.cronActive && s !in w.monitor.observers
  {
    hide World.Apart, World.CallbacksOk, Accounted, CronLinked, OnlyLastAlive, Cron.Valid, Monitor.Valid;
    assert w.Known(s) && s.Ok();
  }
}
