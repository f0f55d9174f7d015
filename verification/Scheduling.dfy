/** The scheduler of a program with the cron table and the process monitor it uses
    (program_scheduler.c, cron.c, process_monitor.c). The callbacks are called as in the C code:
    adding an observer may call back into the scheduler that adds it. */
module Scheduling {
  import opened Wrappers
  import opened ProgramTypes
  import opened Processes

  datatype SchedulerState = Stopped | Running

  datatype ObserverState = Pending | Waiting | Finished {
    /** The order in which a scheduler goes through these states. */
    function Stage(): nat { if Pending? then 0 else if Waiting? then 1 else 2 }
  }

  /** A timer is off, expires once, or expires again and again. */
  datatype Timer = Off | Once(delay: nat) | Periodic(interval: nat)

  /** timer_configure: no delay and no interval turn a timer off. */
  function Configured(delay: nat, interval: nat): Timer {
    if interval > 0 then Periodic(interval) else if delay > 0 then Once(delay) else Off
  }

  /** How the calls into the operating system made by one handler turn out. wrapNested is about
      the message of the error that the timer cannot be stopped. */
  datatype Answers = Answers(stdin: bool, stdout: bool, stderr: bool, spawn: bool, pid: Pid, armTimer: bool,
                             stopTimer: bool, cron: CronAnswers, wrapMessage: bool, wrapNested: bool) {
    /** Opening stdin, stdout and stderr and forking, in this order. */
    predicate Spawns() { stdin && stdout && stderr && spawn }
  }

  datatype CronAnswers = CronAnswers(formatted: bool, appended: bool, written: bool) {
    predicate Adds(hadEntry: bool) { formatted && (hadEntry || appended) && written }
  }

  datatype MonitorAnswers = MonitorAnswers(appended: bool, searched: bool, found: bool, timer: bool)

  /** How the preparation of directories and file names turns out; a failure stops the scheduler,
      with the answers for that. */
  datatype Preparation = Prepared | Refused(a: Answers) | StderrFails(a: Answers)

  /** How the calls made by one update turn out; it may start a scheduler twice. */
  datatype Turn = Turn(preparation: Preparation, monitor: MonitorAnswers, first: Answers, second: Answers)

  /** Where the file names that a scheduler has stored for its processes come from. */
  datatype Names = Missing | OfEarlierUpdate | OfLastUpdate

  function Older(names: Names): Names { if names.OfLastUpdate? then OfEarlierUpdate else names }

  /** State shared by all schedulers: network.c, and the static flag in program_scheduler_stop. */
  class Daemon {
    var connected: bool
    var recursive: bool
    constructor ()
      ensures !connected && !recursive
    {
      connected, recursive := false, false;
    }
  }

  // ----- cron.c -----

  datatype Entry = Entry(programId: nat, notify: Scheduler)

  ghost predicate EntryAt(entries: seq<Entry>, i: nat, id: nat) {
    i < |entries| && entries[i].programId == id
  }

  ghost predicate HasEntry(entries: seq<Entry>, id: nat) {
    exists i: nat :: EntryAt(entries, i, id)
  }

  /** The same entries, except possibly the one of this program. */
  ghost predicate SameEntriesBut(a: seq<Entry>, b: seq<Entry>, mine: Entry) {
    && (forall j | j != mine.programId :: HasEntry(b, j) == HasEntry(a, j))
    && (forall e | e in b :: e in a || e == mine)
  }

  lemma SameEntriesButTransitive(a: seq<Entry>, b: seq<Entry>, c: seq<Entry>, mine: Entry)
    requires SameEntriesBut(a, b, mine) && SameEntriesBut(b, c, mine)
    ensures SameEntriesBut(a, c, mine)
  {
  }

  lemma SameEntriesButItself(a: seq<Entry>, mine: Entry)
    ensures SameEntriesBut(a, a, mine)
  {
  }

  class Cron {
    var entries: seq<Entry>

    /** At most one entry per program. */
    ghost predicate Valid()
      reads this
    {
      forall i: nat, j: nat, id :: EntryAt(entries, i, id) && EntryAt(entries, j, id) ==> i == j
    }

    constructor ()
      ensures Valid() && entries == []
    {
      entries := [];
    }

    /** The position of the entry of this program, or the end. */
    method FindEntry(id: nat) returns (i: nat)
      ensures i <= |entries| && (forall j: nat | j < i :: !EntryAt(entries, j, id))
      ensures i < |entries| ==> EntryAt(entries, i, id)
      ensures i < |entries| <==> HasEntry(entries, id)
    {
      i := 0;
      while i < |entries| && entries[i].programId != id
        invariant i <= |entries|
        invariant forall j: nat | j < i :: !EntryAt(entries, j, id)
      {
        i := i + 1;
      }
      assert i < |entries| ==> EntryAt(entries, i, id);
    }

    /** cron_add_entry. An entry that was there before survives a failure, a new one does not. The
        loop leaves the pointer to the entry uninitialised when the table is empty; if it is then
        not NULL by chance (stale), the entry is written elsewhere, and a success is returned
        without an entry. */
    method AddEntry(id: nat, notify: Scheduler, a: CronAnswers, stale: bool) returns (ok: bool)
      requires Valid()
      modifies `entries
      ensures Valid() && SameEntriesBut(old(entries), entries, Entry(id, notify))
      ensures (ok ==> HasEntry(entries, id)) <==> !(stale && old(entries) == [] && a.formatted && a.written)
      ensures if stale && old(entries) == [] then entries == [] && ok == (a.formatted && a.written)
              else
                && (ok <==> a.formatted && (old(HasEntry(entries, id)) || a.appended) && a.written)
                && (HasEntry(entries, id) <==> old(HasEntry(entries, id)) || ok)
      ensures ok ==> forall j: nat | EntryAt(entries, j, id) :: entries[j].notify == notify
      ensures !a.formatted || (!ok && !old(HasEntry(entries, id))) ==> entries == old(entries)
    {
      if !a.formatted {
        return false;
      }
      var i := FindEntry(id);
      var appended := i == |entries|;
      ghost var before := entries;
      if appended && stale && entries == [] {
        return a.written;
      }
      if appended {
        if !a.appended {
          return false;
        }
        entries := entries + [Entry(id, notify)];
        assert EntryAt(entries, i, id);
      } else {
        entries := entries[i := Entry(id, notify)];
        assert EntryAt(before, i, id) && EntryAt(entries, i, id);
      }
      assert forall j: nat, k | EntryAt(before, j, k) :: EntryAt(entries, j, k);
      assert forall j: nat, k | EntryAt(entries, j, k) :: EntryAt(before, j, k) || j == i;
      if !a.written {
        if appended {
          entries := entries[..|entries| - 1];
          assert entries == before;
        }
        return false;
      }
      ok := true;
    }

    /** cron_remove_entry. */
    method RemoveEntry(id: nat)
      requires Valid()
      modifies `entries
      ensures Valid() && !HasEntry(entries, id)
      ensures forall notify :: SameEntriesBut(old(entries), entries, Entry(id, notify))
    {
      var i := FindEntry(id);
      if i < |entries| {
        ghost var before := entries;
        entries := entries[..i] + entries[i + 1..];
        assert forall j: nat, k :: EntryAt(entries, j, k) <==> EntryAt(before, if j < i then j else j + 1, k);
        assert forall j: nat, k | EntryAt(before, j, k) && k != id :: EntryAt(entries, if j < i then j else j - 1, k);
      }
    }
  }

  // ----- process_monitor.c -----

  const SEARCH_INTERVAL := 2
  const LXPANEL_TIMEOUT := 30

  ghost function Removed(observers: seq<Scheduler>, o: Scheduler): seq<Scheduler> {
    if observers == [] then [] else if observers[0] == o then observers[1..]
    else [observers[0]] + Removed(observers[1..], o)
  }

  ghost predicate NoDuplicates(observers: seq<Scheduler>) {
    forall i, j | 0 <= i < j < |observers| :: observers[i] != observers[j]
  }

  /** The same observers, except possibly for o. */
  ghost predicate SameBut(a: seq<Scheduler>, b: seq<Scheduler>, o: Scheduler) {
    && (forall t | t in a && t != o :: t in b)
    && (forall t | t in b && t != o :: t in a)
  }

  lemma SameButItself(a: seq<Scheduler>, o: Scheduler)
    ensures SameBut(a, a, o)
  {
  }

  lemma SameButTransitive(a: seq<Scheduler>, b: seq<Scheduler>, c: seq<Scheduler>, o: Scheduler)
    requires SameBut(a, b, o) && SameBut(b, c, o)
    ensures SameBut(a, c, o)
  {
  }

  lemma {:induction false} RemovedAt(observers: seq<Scheduler>, k: nat)
    requires k < |observers| && observers[k] !in observers[..k]
    ensures Removed(observers, observers[k]) == observers[..k] + observers[k + 1..]
  {
    if k > 0 {
      assert observers[0] in observers[..k];
      assert observers[1..][..k - 1] == observers[..k][1..];
      RemovedAt(observers[1..], k - 1);
    }
  }

  lemma {:induction false} RemovedNothing(observers: seq<Scheduler>, o: Scheduler)
    requires o !in observers
    ensures Removed(observers, o) == observers
  {
    if observers != [] {
      RemovedNothing(observers[1..], o);
    }
  }

  lemma RemovedMembers(observers: seq<Scheduler>, o: Scheduler)
    requires NoDuplicates(observers)
    ensures NoDuplicates(Removed(observers, o)) && o !in Removed(observers, o)
    ensures SameBut(observers, Removed(observers, o), o)
  {
    if o in observers {
      var k :| 0 <= k < |observers| && observers[k] == o;
      RemovedAt(observers, k);
    } else {
      RemovedNothing(observers, o);
    }
  }

  /** The observation of the one process that schedulers wait for, once it present. */
  class Monitor {
    var present: bool
    var observers: seq<Scheduler>
    var waiting: bool
    var remaining: nat
    ghost var timeout: nat
    ghost var ticks: nat      // of the search timer since the observation was created

    /** While it waits, every tick uses up two seconds of the timeout. */
    ghost predicate Valid()
      reads this
    {
      && NoDuplicates(observers)
      && (!present ==> observers == [] && !waiting)
      && (waiting && ticks == 0 ==> remaining == timeout)
      && (waiting && ticks > 0 ==> remaining > 0 && remaining + SEARCH_INTERVAL * ticks == timeout)
    }

    constructor ()
      ensures Valid() && !present
    {
      present, observers, waiting, remaining, timeout, ticks := false, [], false, 0, 0, 0;
    }

    /** The first half of process_monitor_update_observation: a search, and two seconds less. */
    method Count(found: bool)
      requires Valid() && waiting
      modifies this`waiting, this`remaining, this`ticks
      ensures Valid() && ticks == old(ticks) + 1
      ensures waiting <==> !found && SEARCH_INTERVAL * ticks < timeout
      ensures !waiting ==> remaining == 0
    {
      ticks := ticks + 1;
      if found {
        waiting := false;
      } else {
        if remaining > SEARCH_INTERVAL {
          remaining := remaining - SEARCH_INTERVAL;
        } else {
          remaining := 0;
        }
        if remaining == 0 {
          waiting := false;
        }
      }
      if !waiting {
        remaining := 0;
      }
    }

    /** process_monitor_remove_observer. */
    method RemoveObserver(o: Scheduler)
      requires Valid()
      modifies this`observers
      ensures Valid() && observers == Removed(old(observers), o)
    {
      RemovedMembers(observers, o);
      var k := 0;
      while k < |observers|
        invariant k <= |observers| && o !in observers[..k] && observers == old(observers)
      {
        if observers[k] == o {
          RemovedAt(observers, k);
          observers := observers[..k] + observers[k + 1..];
          return;
        }
        k := k + 1;
      }
      RemovedNothing(observers, o);
    }

    /** process_monitor_add_observer. When the process is already there the observer is called
        back before this returns. */
    method AddObserver(timeout: nat, o: Scheduler, m: MonitorAnswers, a: Answers) returns (ok: bool)
      requires Valid() && (observers != [] ==> waiting) && o !in observers
      requires o.monitor == this && !o.daemon.recursive && o.ConsistentBut(true) && o.observerState.Waiting?
      modifies this, o, o.daemon`recursive, o.cron`entries
      ensures Valid() && (observers != [] ==> waiting) && !o.daemon.recursive && o.Contained() && o.Steady()
      ensures ok <==> if old(present) then m.appended else m.searched && m.appended && (m.found || m.timer)
      ensures if old(present) then
                && present && waiting == old(waiting) && remaining == old(remaining)
                && this.timeout == old(this.timeout) && ticks == old(ticks)
              else if ok then present && (waiting <==> !m.found) && (waiting ==> this.timeout == timeout && ticks == 0)
              else !present
      ensures !ok ==> observers == old(observers) && o.cron.entries == old(o.cron.entries) && o.Unmoved(old(o.Now()))
                      && o.ConsistentBut(true) && o.state.Stopped?
      ensures ok ==> o.Ok()
      ensures o.calledBack <==> ok && !(if old(present) then old(waiting) else !m.found)
      ensures ok ==> if (if old(present) then old(waiting) else !m.found) then
                       observers == old(observers) + [o] && waiting && o.Unmoved(old(o.Now()))
                     else o.observerState.Finished? && o.Started(old(o.Now()), a)
    {
      hide OnlyLastAlive, Accounted, CronLinked, HasEntry, SameEntriesBut, SameBut, Cron.Valid, Scheduler.ProcessesOk,
           Scheduler.Started, Scheduler.Unmoved, Scheduler.ConsistentBut, Scheduler.Ok, NoDuplicates, Configured,
           Scheduler.Untouched;
      if present {
        ok := Join(o, m, a);
      } else {
        ok := Observe(timeout, o, m, a);
      }
    }

    /** One observer more for the observation that there is. */
    method Join(o: Scheduler, m: MonitorAnswers, a: Answers) returns (ok: bool)
      requires Valid() && (observers != [] ==> waiting) && o !in observers
      requires o.monitor == this && !o.daemon.recursive && o.ConsistentBut(true) && o.observerState.Waiting?
      modifies this, o, o.daemon`recursive, o.cron`entries
      ensures Valid() && (observers != [] ==> waiting) && !o.daemon.recursive && o.Contained() && o.Steady()
      requires present
      ensures present && waiting == old(waiting) && remaining == old(remaining) && timeout == old(timeout)
      ensures ok == m.appended && ticks == old(ticks)
      ensures !ok ==> observers == old(observers) && o.cron.entries == old(o.cron.entries) && o.Unmoved(old(o.Now()))
                      && o.ConsistentBut(true) && o.state.Stopped?
      ensures ok ==> o.Ok()
      ensures o.calledBack <==> ok && !old(waiting)
      ensures ok ==> if old(waiting) then observers == old(observers) + [o] && waiting && o.Unmoved(old(o.Now()))
                     else o.observerState.Finished? && o.Started(old(o.Now()), a)
    {
      hide OnlyLastAlive, Accounted, CronLinked, HasEntry, SameEntriesBut, Cron.Valid, Scheduler.ProcessesOk,
           Scheduler.Started, Configured, Scheduler.Untouched;
      SameEntriesButItself(o.cron.entries, Entry(o.id, o));
      if !m.appended {
        return false;
      }
      observers := observers + [o];
      if !waiting {
        o.HandleObserver(a);
      }
      ok := true;
    }

    /** The first observer, with a search and a timer for the next one. */
    method Observe(timeout: nat, o: Scheduler, m: MonitorAnswers, a: Answers) returns (ok: bool)
      requires Valid() && (observers != [] ==> waiting) && o !in observers
      requires o.monitor == this && !o.daemon.recursive && o.ConsistentBut(true) && o.observerState.Waiting?
      modifies this, o, o.daemon`recursive, o.cron`entries
      ensures Valid() && (observers != [] ==> waiting) && !o.daemon.recursive && o.Contained() && o.Steady()
      requires !present
      ensures ok <==> m.searched && m.appended && (m.found || m.timer)
      ensures if ok then present && (waiting <==> !m.found) && (waiting ==> this.timeout == timeout && ticks == 0)
              else !present
      ensures !ok ==> observers == old(observers) && o.cron.entries == old(o.cron.entries) && o.Unmoved(old(o.Now()))
                      && o.ConsistentBut(true) && o.state.Stopped?
      ensures ok ==> o.Ok()
      ensures o.calledBack <==> ok && m.found
      ensures ok ==> if !m.found then observers == old(observers) + [o] && waiting && o.Unmoved(old(o.Now()))
                     else o.observerState.Finished? && o.Started(old(o.Now()), a)
    {
      hide OnlyLastAlive, Accounted, CronLinked, HasEntry, SameEntriesBut, Cron.Valid, Scheduler.ProcessesOk,
           Scheduler.Started, Configured, Scheduler.Untouched;
      SameEntriesButItself(o.cron.entries, Entry(o.id, o));
      if !m.searched {
        return false;
      }
      present := true;
      if !m.appended {
        present := false;
        return false;
      }
      observers := [o];
      if !m.found {
        remaining, waiting, this.timeout, ticks := timeout, true, timeout, 0;
        if !m.timer {
          present, observers, waiting := false, [], false;
          return false;
        }
      } else {
        remaining, waiting := 0, false;
        o.HandleObserver(a);
      }
      ok := true;
    }
  }

  // ----- program_scheduler.c -----

  /** All processes ever spawned are known, and only the last one can be alive. */
  ghost predicate OnlyLastAlive(last: Option<Process>, spawned: seq<Process>)
    reads spawned
  {
    && (last.None? ==> spawned == [])
    && (last.Some? ==> |spawned| > 0 && last.value == spawned[|spawned| - 1])
    && (forall i | 0 <= i < |spawned| :: spawned[i].Valid())
    && (forall i | 0 <= i < |spawned| - 1 :: !spawned[i].state.Alive())
  }

  /** A message string is the current message, or about to become it, or lost. */
  ghost predicate Accounted(message: Option<nat>, pending: set<nat>, live: set<nat>, lost: set<nat>, issued: nat) {
    && live == Owned(message) + pending + lost
    && (Owned(message) + pending) !! lost
    && forall x | x in live :: x < issued
  }

  lemma AccountedLost(message: Option<nat>, m: Option<nat>, pending: set<nat>, live: set<nat>, lost: set<nat>,
                      issued: nat)
    requires Accounted(message, pending + Owned(m), live, lost, issued) && Owned(m) !! pending + Owned(message)
    ensures Accounted(message, pending, live, lost + Owned(m), issued)
  {
  }

  ghost predicate CronLinked(s: Scheduler, active: bool, entries: seq<Entry>) {
    && (active <==> HasEntry(entries, s.id))
    && forall e | e in entries && e.programId == s.id :: e.notify == s
  }

  function Owned(m: Option<nat>): set<nat> { if m.Some? then {m.value} else {} }

  datatype Snapshot = Snapshot(state: SchedulerState, observerState: ObserverState, timer: Timer, timerActive: bool,
                               cronActive: bool, message: Option<nat>, last: Option<Process>, spawned: seq<Process>,
                               lost: set<nat>, busy: bool, shutdown: bool)

  class Scheduler {
    const id: nat
    const daemon: Daemon
    const cron: Cron
    const monitor: Monitor
    const display: bool              // the program waits for lxpanel before it starts

    // the configuration of the program
    var startMode: StartMode
    var continueAfterError: bool
    var startInterval: nat

    var state: SchedulerState
    var observerState: ObserverState
    var shutdown: bool
    var waitingForBrickd: bool
    ghost var names: Names
    ghost var calledBack: bool       // its observer has called back and tried to start it
    var timer: Timer
    var timerActive: bool
    var cronActive: bool
    var message: Option<nat>
    var last: Option<Process>

    var issued: nat                  // handles for message strings
    ghost var live: set<nat>         // message strings not released yet
    ghost var lost: set<nat>         // those that nobody will ever release
    var spawned: seq<Process>        // every child process so far

    /** A process of this scheduler is alive as far as the daemon knows. */
    predicate Busy()
      reads this, if last.Some? then {last.value} else {}
    {
      last.Some? && last.value.state.Alive()
    }

    ghost predicate ProcessesOk()
      reads this, spawned
    {
      OnlyLastAlive(last, spawned)
    }

    ghost predicate MessagesOk(pending: set<nat>)
      reads this
    {
      Accounted(message, pending, live, lost, issued)
    }

    /** The flags tell the truth about the cron table and, unless the observer is just being
        added, about the process monitor. */
    ghost predicate Linked(adding: bool)
      reads this, cron, monitor
    {
      && cron.Valid() && monitor.Valid()
      && CronLinked(this, cronActive, cron.entries)
      && (this in monitor.observers <==> observerState.Waiting? && !adding)
      && (timer != Off ==> timerActive)
    }

    ghost predicate ConsistentBut(adding: bool)
      reads this, cron, monitor, spawned
    {
      && Linked(adding) && ProcessesOk() && MessagesOk({})
      && (state.Running? ==> observerState.Finished?)
      && (!display ==> observerState.Finished?) && (calledBack ==> display && observerState.Finished?)
      && (waitingForBrickd && state.Running? ==> calledBack)
      && (shutdown ==> state.Stopped? && observerState.Finished? && !cronActive)
    }

    ghost predicate Consistent()
      reads this, cron, monitor, spawned
    {
      ConsistentBut(false)
    }

    /** Something is in place that will spawn the next process. An interval of 0 seconds, which
        only a configuration file can ask for, turns the timer off instead. */
    ghost predicate Triggered()
      reads this, if last.Some? then {last.value} else {}
    {
      match startMode
      case Never => false
      case Always => Busy() || timer != Off
      case Interval => timer == Configured(0, startInterval * 1000000)
      case Cron => cronActive
    }

    /** A scheduler never stalls: while it is running, a trigger is in place. */
    ghost predicate Ok()
      reads this, cron, monitor, spawned, if last.Some? then {last.value} else {}
    {
      Consistent() && (state.Running? ==> Triggered())
    }

    /** What starting comes to: nothing but a failing call keeps a scheduler from running. */
    ghost predicate Starts(a: Answers, hadEntry: bool, busy: bool)
      reads this`startMode
    {
      match startMode
      case Never => false
      case Always => busy || a.Spawns()
      case Interval => a.armTimer
      case Cron => a.cron.Adds(hadEntry)
    }

    // ----- what a step changes -----

    /** What there is to be said about a scheduler before a step. */
    ghost function Now(): Snapshot
      reads this, if last.Some? then {last.value} else {}
    {
      Snapshot(state, observerState, timer, timerActive, cronActive, message, last, spawned, lost, Busy(), shutdown)
    }

    /** What is never taken back. */
    ghost predicate GoesOn(was: Snapshot)
      reads this
    {
      && (was.shutdown ==> shutdown) && was.observerState.Stage() <= observerState.Stage()
      && was.spawned <= spawned
    }

    twostate predicate SameConfig()
      reads this
    {
      && startMode == old(startMode) && continueAfterError == old(continueAfterError)
      && startInterval == old(startInterval)
    }

    /** What only updating and shutting down change. */
    twostate predicate Steady()
      reads this
    {
      SameConfig() && shutdown == old(shutdown) && waitingForBrickd == old(waitingForBrickd) && names == old(names)
    }

    ghost predicate NoneSpawned(was: Snapshot)
      reads this
    {
      last == was.last && spawned == was.spawned
    }

    /** Nothing of another scheduler changes, no process is forgotten, and none is taken over
        from elsewhere. */
    twostate predicate Contained()
      reads this, cron, monitor
    {
      && SameEntriesBut(old(cron.entries), cron.entries, Entry(id, this))
      && SameBut(old(monitor.observers), monitor.observers, this)
      && old(observerState).Stage() <= observerState.Stage()
      && (calledBack != old(calledBack) ==> calledBack && !old(observerState.Finished?))
      && Grown()
    }

    twostate predicate Grown()
      reads this
    {
      old(spawned) <= spawned && forall p | p in spawned :: p in old(spawned) || fresh(p)
    }

    twostate lemma NotGrown()
      requires spawned == old(spawned)
      ensures Grown()
    {
    }

    twostate predicate OnlyThis()
      reads this, cron, monitor, daemon
    {
      && Contained() && Steady() && daemon.recursive == old(daemon.recursive)
      && (old(observerState) != Waiting ==> monitor.observers == old(monitor.observers))
      && (calledBack != old(calledBack) ==> old(observerState.Waiting?))
    }

    /** The state of the scheduler, except for the timer and the message strings, is as before. */
    ghost predicate Resting(was: Snapshot)
      reads this
    {
      && NoneSpawned(was) && state == was.state && observerState == was.observerState
      && cronActive == was.cronActive && message == was.message
    }

    ghost predicate Unmoved(was: Snapshot)
      reads this
    {
      Resting(was) && timer == was.timer && timerActive == was.timerActive && lost == was.lost
    }

    /** So are the tables. */
    twostate predicate Untouched()
      reads this, cron, monitor
    {
      Steady() && Resting(old(Now())) && calledBack == old(calledBack) && cron.entries == old(cron.entries)
        && monitor.observers == old(monitor.observers)
    }

    /** Everything but the message strings is as before. */
    twostate predicate Same()
      reads this, cron, monitor, daemon
    {
      && Untouched() && timer == old(timer) && timerActive == old(timerActive)
      && daemon.recursive == old(daemon.recursive)
    }

    /** program_scheduler_create. A program with a display waits for lxpanel first. */
    constructor (id: nat, daemon: Daemon, cron: Cron, monitor: Monitor, display: bool,
                 startMode: StartMode, continueAfterError: bool, startInterval: nat)
      requires cron.Valid() && monitor.Valid() && !HasEntry(cron.entries, id)
      ensures Ok() && state.Stopped? && !shutdown && spawned == [] && message == None && !timerActive
      ensures this.id == id && this.daemon == daemon && this.cron == cron && this.monitor == monitor
      ensures this.startMode == startMode && this.continueAfterError == continueAfterError
      ensures this.startInterval == startInterval && names == Missing && lost == {}
      ensures waitingForBrickd == !daemon.connected && observerState == if display then Pending else Finished
      ensures this.display == display && !calledBack
    {
      this.id, this.daemon, this.cron, this.monitor, this.display := id, daemon, cron, monitor, display;
      this.startMode, this.continueAfterError, this.startInterval := startMode, continueAfterError, startInterval;
      state, observerState, shutdown := Stopped, if display then Pending else Finished, false;
      waitingForBrickd, names, calledBack := !daemon.connected, Missing, false;
      timer, timerActive, cronActive, message, last := Off, false, false, None, None;
      issued, live, lost, spawned := 0, {}, {}, [];
      new;
      forall e | e in cron.entries && e.programId == id
        ensures false
      {
        var i: nat :| i < |cron.entries| && cron.entries[i] == e;
        assert EntryAt(cron.entries, i, id);
      }
    }

    // ----- static functions -----

    method SetState(state: SchedulerState, message: Option<nat>)
      requires MessagesOk(Owned(message))
      modifies this`state, this`message, this`live
      ensures this.state == state && this.message == message && MessagesOk({})
    {
      if this.state == state && this.message == message {
        return;
      }
      if this.message.Some? && this.message != message {
        live := live - {this.message.value};
      }
      this.state, this.message := state, message;
    }

    method AbortObserver()
      requires monitor.Valid() && (this in monitor.observers ==> observerState.Waiting?)
      modifies this`observerState, monitor`observers
      ensures monitor.Valid() && observerState.Finished? && this !in monitor.observers
      ensures SameBut(old(monitor.observers), monitor.observers, this)
      ensures !old(observerState.Waiting?) ==> monitor.observers == old(monitor.observers)
    {
      if observerState.Waiting? {
        RemovedMembers(monitor.observers, this);
        monitor.RemoveObserver(this);
      }
      observerState := Finished;
    }

    /** program_scheduler_handle_error: the error becomes the message of the stopped scheduler.
        While a scheduler is being stopped, nobody takes the message. */
    method HandleError(a: Answers, ghost pending: set<nat> := {})
      requires Linked(false) && ProcessesOk() && MessagesOk(pending)
      requires daemon.recursive || pending == {}
      modifies this, daemon`recursive, cron`entries, monitor`observers
      ensures Linked(false) && ProcessesOk() && MessagesOk(pending) && OnlyThis() && NoneSpawned(old(Now()))
      ensures old(daemon.recursive) ==> Same() && (lost == old(lost) <==> !a.wrapMessage)
      ensures !old(daemon.recursive) ==> StoppedByError(old(Now()), a)
      decreases if daemon.recursive then 0 else 1, 4
    {
      hide OnlyLastAlive, CronLinked, HasEntry, SameEntriesBut, SameBut, Cron.Valid, Monitor.Valid;
      var wrapped: Option<nat> := None;
      if a.wrapMessage {
        wrapped := Some(issued);
        live, issued := live + {issued}, issued + 1;
      }
      Stop(wrapped, a, pending);
    }

    /** The state after stopping: only a timer that cannot be stopped stays behind, and then the
        message about that is lost, if there was memory for it. */
    ghost predicate StoppedBy(was: Snapshot, a: Answers)
      reads this
    {
      && state.Stopped? && observerState.Finished? && !cronActive
      && timer == (if was.timerActive && a.stopTimer then Off else was.timer)
      && timerActive == (was.timerActive && !a.stopTimer)
      && (lost == was.lost <==> !(was.timerActive && !a.stopTimer && a.wrapNested))
    }

    ghost predicate StoppedByError(was: Snapshot, a: Answers)
      reads this
    {
      StoppedBy(was, a) && (message.Some? <==> a.wrapMessage)
    }

    /** program_scheduler_stop. A nested call does nothing, so its message is lost. */
    method Stop(message: Option<nat>, a: Answers, ghost pending: set<nat> := {})
      requires Linked(false) && ProcessesOk() && MessagesOk(pending + Owned(message))
      requires if daemon.recursive then Owned(message) !! pending + Owned(this.message) else pending == {}
      modifies this, daemon`recursive, cron`entries, monitor`observers
      ensures Linked(false) && ProcessesOk() && MessagesOk(pending) && OnlyThis() && NoneSpawned(old(Now()))
      ensures old(daemon.recursive) ==> Same() && lost == old(lost) + Owned(message)
      ensures !old(daemon.recursive) ==> StoppedBy(old(Now()), a) && this.message == message
      decreases if daemon.recursive then 0 else 1, 3
    {
      hide OnlyLastAlive, Accounted, CronLinked, HasEntry, SameEntriesBut, SameBut, Cron.Valid, Monitor.Valid;
      if daemon.recursive {
        SameEntriesButItself(cron.entries, Entry(id, this));
        SameButItself(monitor.observers, this);
        AccountedLost(this.message, message, pending, live, lost, issued);
        lost := lost + Owned(message);
        return;
      }
      assert pending + Owned(message) == Owned(message);
      StopTriggers(message, a);
    }

    method StopTriggers(message: Option<nat>, a: Answers)
      requires Linked(false) && ProcessesOk() && MessagesOk(Owned(message)) && !daemon.recursive
      modifies this, daemon`recursive, cron`entries, monitor`observers
      ensures Linked(false) && ProcessesOk() && MessagesOk({}) && OnlyThis() && NoneSpawned(old(Now()))
      ensures StoppedBy(old(Now()), a) && this.message == message
      decreases if daemon.recursive then 0 else 1, 2
    {
      hide Scheduler.Grown, OnlyLastAlive, Accounted, CronLinked, HasEntry, SameEntriesBut, SameBut, Cron.Valid,
           Monitor.Valid;
      AbortObserver();
      StopTimerAndCron(a, Owned(message));
      SetState(Stopped, message);
      NotGrown();
    }

    method StopTimerAndCron(a: Answers, ghost pending: set<nat>)
      requires Linked(false) && ProcessesOk() && MessagesOk(pending) && !daemon.recursive && observerState.Finished?
      modifies this, daemon`recursive, cron`entries, monitor`observers
      ensures Linked(false) && ProcessesOk() && MessagesOk(pending) && !daemon.recursive && Steady()
              && NoneSpawned(old(Now()))
      ensures calledBack == old(calledBack)
      ensures state == old(state) && observerState.Finished? && message == old(message) && !cronActive
      ensures monitor.observers == old(monitor.observers)
      ensures SameEntriesBut(old(cron.entries), cron.entries, Entry(id, this))
      ensures timer == (if old(timerActive) && a.stopTimer then Off else old(timer))
      ensures timerActive == (old(timerActive) && !a.stopTimer)
      ensures lost == old(lost) <==> !(old(timerActive) && !a.stopTimer && a.wrapNested)
      decreases if daemon.recursive then 0 else 1, 1
    {
      hide OnlyLastAlive, Accounted, CronLinked, HasEntry, SameEntriesBut, SameBut, Cron.Valid, Monitor.Valid;
      StopTimer(a, pending);
      StopCron();
    }

    /** When the timer cannot be stopped, the nested call of program_scheduler_stop does nothing. */
    method StopTimer(a: Answers, ghost pending: set<nat>)
      requires Linked(false) && ProcessesOk() && MessagesOk(pending) && !daemon.recursive && observerState.Finished?
      modifies this, daemon`recursive, cron`entries, monitor`observers
      ensures Linked(false) && ProcessesOk() && MessagesOk(pending) && !daemon.recursive && Untouched()
      ensures timer == (if old(timerActive) && a.stopTimer then Off else old(timer))
      ensures timerActive == (old(timerActive) && !a.stopTimer)
      ensures lost == old(lost) <==> !(old(timerActive) && !a.stopTimer && a.wrapNested)
      decreases if daemon.recursive then 0 else 1, 0
    {
      hide OnlyLastAlive, Accounted, CronLinked, SameEntriesBut, SameBut, Cron.Valid, Monitor.Valid;
      if timerActive {
        if !a.stopTimer {
          daemon.recursive := true;
          HandleError(a.(wrapMessage := a.wrapNested), pending);
          daemon.recursive := false;
        } else {
          timer, timerActive := Off, false;
        }
      }
    }

    method StopCron()
      requires cron.Valid() && CronLinked(this, cronActive, cron.entries)
      modifies `cronActive, cron`entries
      ensures cron.Valid() && CronLinked(this, cronActive, cron.entries) && !cronActive
      ensures SameEntriesBut(old(cron.entries), cron.entries, Entry(id, this))
    {
      hide Cron.Valid;
      if cronActive {
        cron.RemoveEntry(id);
        assert SameEntriesBut(old(cron.entries), cron.entries, Entry(id, this));
        cronActive := false;
      }
    }

    /** program_scheduler_spawn_process. */
    method SpawnProcess(a: Answers)
      requires Consistent() && !daemon.recursive
      modifies this, daemon`recursive, cron`entries, monitor`observers
      ensures Consistent() && OnlyThis() && observerState.Finished? && SpawnedBy(old(Now()), a)
    {
      hide OnlyLastAlive, Accounted, CronLinked, HasEntry, SameEntriesBut, SameBut, Cron.Valid, Monitor.Valid;
      AbortObserver();
      SameEntriesButItself(cron.entries, Entry(id, this));
      if last.Some? {
        if last.value.state.Alive() {
          return;
        }
      }
      SpawnNew(a);
    }

    method SpawnNew(a: Answers)
      requires Linked(false) && ProcessesOk() && MessagesOk({}) && !daemon.recursive && !Busy()
      modifies this, daemon`recursive, cron`entries, monitor`observers
      ensures Linked(false) && ProcessesOk() && MessagesOk({}) && OnlyThis() && SpawnedBy(old(Now()), a)
      ensures if a.Spawns() then observerState == old(observerState) else state.Stopped? && observerState.Finished?
    {
      hide OnlyLastAlive, Accounted, CronLinked, HasEntry, SameEntriesBut, SameBut, Cron.Valid, Monitor.Valid;
      var ok := Attempt(a.Spawns(), a);
      if ok {
        AddProcess(a.pid);
      }
    }

    /** One process more, with the pid that the system gave it, about which nothing is known yet. */
    ghost predicate NewProcess(before: seq<Process>, pid: nat)
      reads this, if last.Some? then {last.value} else {}
    {
      && last.Some? && last.value !in before && spawned == before + [last.value] && last.value.IsNew()
      && last.value.pid == pid && !last.value.releaseOnDeath
    }

    /** Never a second process beside a live one; otherwise a new one, or stopped. */
    ghost predicate SpawnedBy(was: Snapshot, a: Answers)
      reads this, if last.Some? then {last.value} else {}
    {
      if was.busy || (a.stdin && a.stdout && a.stderr && a.spawn) then
        && Busy() && state == was.state && timer == was.timer && timerActive == was.timerActive
        && cronActive == was.cronActive && message == was.message && lost == was.lost
        && (if was.busy then NoneSpawned(was) else NewProcess(was.spawned, a.pid))
      else NoneSpawned(was) && StoppedByError(was, a)
    }

    /** program_start: a client may ask for a process at any time. Neither the mode nor the state
        of the scheduler is looked at, and not even whether it was shut down. */
    method StartProcess(a: Answers)
      requires Ok() && !daemon.recursive
      modifies this, daemon`recursive, cron`entries, monitor`observers
      ensures Ok() && OnlyThis() && observerState.Finished? && SpawnedBy(old(Now()), a)
    {
      hide OnlyLastAlive, Accounted, CronLinked, HasEntry, SameEntriesBut, SameBut, Cron.Valid, Monitor.Valid;
      SpawnProcess(a);
    }

    /** A call is made; if it fails, that is the error of the scheduler. */
    method Attempt(works: bool, a: Answers) returns (ok: bool)
      requires Linked(false) && ProcessesOk() && MessagesOk({}) && !daemon.recursive
      modifies this, daemon`recursive, cron`entries, monitor`observers
      ensures Linked(false) && ProcessesOk() && MessagesOk({}) && OnlyThis() && NoneSpawned(old(Now())) && ok == works
      ensures if ok then Same() && lost == old(lost) else StoppedByError(old(Now()), a)
    {
      hide OnlyLastAlive, Accounted, CronLinked, HasEntry, SameEntriesBut, SameBut, Cron.Valid, Monitor.Valid;
      SameEntriesButItself(cron.entries, Entry(id, this));
      SameButItself(monitor.observers, this);
      if !works {
        HandleError(a);
      }
      ok := works;
    }

    /** The process takes the place of the dead one. */
    method AddProcess(pid: Pid)
      requires ProcessesOk() && !Busy()
      modifies `last, `spawned
      ensures ProcessesOk() && Busy() && fresh(last.value) && spawned == old(spawned) + [last.value]
              && last.value.IsNew() && last.value.pid == pid && !last.value.releaseOnDeath
    {
      hide Process.Valid;
      var process := new Process(pid, false);
      last, spawned := Some(process), spawned + [process];
    }

    /** program_scheduler_start. It does not look at waiting_for_brickd; only an observer starts a
        scheduler that still waits for Brick Daemon. */
    method Start(a: Answers)
      requires Consistent() && !daemon.recursive && (waitingForBrickd ==> calledBack || shutdown)
      modifies this, daemon`recursive, cron`entries, monitor`observers
      ensures Ok() && OnlyThis()
      ensures if shutdown then Same() else observerState.Finished? && Started(old(Now()), a)
    {
      hide OnlyLastAlive, Accounted, CronLinked, HasEntry, SameEntriesBut, SameBut, Cron.Valid, Monitor.Valid,
           NoDuplicates, Scheduler.Starts, Process.IsNew;
      if shutdown {
        SameEntriesButItself(cron.entries, Entry(id, this));
        SameButItself(monitor.observers, this);
        return;
      }
      AbortObserver();
      SetState(Running, None);
      Launch(a);
    }

    /** It is running if and only if the calls that its mode needs work, and only always mode
        spawns a process at once. */
    ghost predicate Started(was: Snapshot, a: Answers)
      reads this, if last.Some? then {last.value} else {}
    {
      && (state.Running? <==> Starts(a, was.cronActive, was.busy))
      && (state.Running? ==> message == None && lost == was.lost)
      && (if startMode.Always? && !was.busy && a.Spawns() then NewProcess(was.spawned, a.pid) else NoneSpawned(was))
    }

    /** What starting means in each mode. */
    method Launch(a: Answers)
      requires Consistent() && !daemon.recursive && state.Running? && !shutdown
      modifies this, daemon`recursive, cron`entries, monitor`observers
      ensures Ok() && OnlyThis() && observerState.Finished?
      ensures state.Running? <==> Starts(a, old(cronActive), old(Busy()))
      ensures state.Running? ==> message == old(message) && lost == old(lost)
      ensures if startMode.Always? && !old(Busy()) && a.Spawns() then NewProcess(old(spawned), a.pid)
              else NoneSpawned(old(Now()))
    {
      hide OnlyLastAlive, Accounted, CronLinked, HasEntry, SameEntriesBut, SameBut, Cron.Valid, Monitor.Valid;
      match startMode {
        case Never =>
          assert {} + Owned(None) == {};
          Stop(None, a);
        case Always =>
          SpawnProcess(a);
        case Interval =>
          var ok := Attempt(a.armTimer, a);
          if ok {
            timer := Configured(0, startInterval * 1000000);
            timerActive := true;
          }
        case Cron =>
          StartCron(a);
      }
    }

    method StartCron(a: Answers)
      requires Linked(false) && ProcessesOk() && MessagesOk({}) && !daemon.recursive && observerState.Finished?
      modifies this, daemon`recursive, cron`entries, monitor`observers
      ensures Linked(false) && ProcessesOk() && MessagesOk({}) && OnlyThis() && NoneSpawned(old(Now()))
      ensures if a.cron.Adds(old(cronActive)) then
                && cronActive && state == old(state) && message == old(message) && lost == old(lost)
                && observerState.Finished?
                && monitor.observers == old(monitor.observers)
              else StoppedBy(old(Now()), a)
    {
      hide OnlyLastAlive, Accounted, CronLinked, HasEntry, SameEntriesBut, SameBut, Cron.Valid, Monitor.Valid;
      ghost var before := cron.entries;
      SameButItself(monitor.observers, this);
      var ok := AddCronEntry(a.cron);
      ghost var between := cron.entries;
      if !ok {
        HandleError(a);
        SameEntriesButTransitive(before, between, cron.entries, Entry(id, this));
      }
    }

    /** program_scheduler_stop as called for a program that never starts: the message stays. */
    method StopKeepingMessage(a: Answers)
      requires Linked(false) && ProcessesOk() && MessagesOk({}) && !daemon.recursive
      modifies this, daemon`recursive, cron`entries, monitor`observers
      ensures Linked(false) && ProcessesOk() && MessagesOk({}) && OnlyThis() && NoneSpawned(old(Now()))
      ensures StoppedBy(old(Now()), a) && message == old(message)
    {
      hide OnlyLastAlive, CronLinked, HasEntry, SameEntriesBut, SameBut, Cron.Valid, Monitor.Valid;
      assert Accounted(message, {} + Owned(message), live, lost, issued);
      Stop(message, a);
    }

    method AddCronEntry(a: CronAnswers) returns (ok: bool)
      requires cron.Valid() && CronLinked(this, cronActive, cron.entries)
      modifies `cronActive, cron`entries
      ensures cron.Valid() && CronLinked(this, cronActive, cron.entries)
      ensures SameEntriesBut(old(cron.entries), cron.entries, Entry(id, this))
      ensures ok <==> a.Adds(old(cronActive))
      ensures ok ==> cronActive
    {
      hide HasEntry, Cron.Valid;
      ok := cron.AddEntry(id, this, a, false);
      if ok {
        cronActive := true;
      }
    }

    /** program_scheduler_handle_observer. The observer removes itself before it starts, and it
        starts even while Brick Daemon is not connected. */
    method HandleObserver(a: Answers)
      requires Ok() && !daemon.recursive
      modifies this, daemon`recursive, cron`entries, monitor`observers
      ensures Ok() && OnlyThis()
      ensures calledBack <==> old(calledBack) || old(observerState.Waiting?)
      ensures if old(observerState).Waiting? then
                observerState.Finished? && monitor.observers == Removed(old(monitor.observers), this)
                  && Started(old(Now()), a)
              else Same()
    {
      hide OnlyLastAlive, Accounted, CronLinked, HasEntry, SameEntriesBut, SameBut, NoDuplicates, Cron.Valid;
      SameEntriesButItself(cron.entries, Entry(id, this));
      SameButItself(monitor.observers, this);
      if observerState.Waiting? {
        RemovedMembers(monitor.observers, this);
        monitor.RemoveObserver(this);
        observerState, calledBack := Finished, true;
        Start(a);
      }
    }

    /** An observer that was called does not wait any more, and has started if it could. */
    ghost predicate Called(was: Snapshot, a: Answers)
      reads this, if last.Some? then {last.value} else {}
    {
      observerState.Finished? && GoesOn(was) && Started(was, a)
    }

    /** program_scheduler_handle_timer, when the timer has expired. */
    method HandleTimer(a: Answers)
      requires Ok() && !daemon.recursive && timer != Off
      modifies this, daemon`recursive, cron`entries, monitor`observers
      ensures Ok() && OnlyThis() && TimerHandled(old(Now()), a)
    {
      hide OnlyLastAlive, Accounted, CronLinked, HasEntry, SameEntriesBut, SameBut, Cron.Valid, Monitor.Valid;
      SameEntriesButItself(cron.entries, Entry(id, this));
      SameButItself(monitor.observers, this);
      if timer.Once? {
        timer := Off;
      }
      if state.Running? {
        if startMode.Always? || startMode.Interval? {
          SpawnProcess(a);
        }
      }
    }

    /** A scheduler that is running in a timed mode has a live process now, exactly one more
        than before if there was none, or it is stopped with an error; any other only notices
        that the timer has expired. */
    ghost predicate TimerHandled(was: Snapshot, a: Answers)
      reads this, if last.Some? then {last.value} else {}
    {
      if was.state.Running? && (startMode.Always? || startMode.Interval?) then
        if was.busy || a.Spawns() then
          && Busy() && state == was.state && message == was.message && cronActive == was.cronActive
          && timer == (if was.timer.Once? then Off else was.timer)
          && (if was.busy then NoneSpawned(was) else NewProcess(was.spawned, a.pid))
        else NoneSpawned(was) && state.Stopped? && !cronActive && (message.Some? <==> a.wrapMessage)
      else Resting(was) && timer == (if was.timer.Once? then Off else was.timer)
    }

    /** program_scheduler_handle_cron. */
    method HandleCron(a: Answers)
      requires Ok() && !daemon.recursive
      modifies this, daemon`recursive, cron`entries, monitor`observers
      ensures Ok() && OnlyThis() && CronHandled(old(Now()), a)
    {
      hide OnlyLastAlive, Accounted, CronLinked, HasEntry, SameEntriesBut, SameBut, Cron.Valid, Monitor.Valid;
      SameEntriesButItself(cron.entries, Entry(id, this));
      SameButItself(monitor.observers, this);
      if state.Running? && startMode.Cron? {
        SpawnProcess(a);
      }
    }

    /** The same for cron mode. */
    ghost predicate CronHandled(was: Snapshot, a: Answers)
      reads this, if last.Some? then {last.value} else {}
    {
      if was.state.Running? && startMode.Cron? then SpawnedBy(was, a)
      else Unmoved(was)
    }

    /** The last process died, and not because it was done. */
    predicate DiedOfError()
      reads this, if last.Some? then {last.value} else {}
    {
      last.Some? && !Busy() && !(last.value.state.ExitedState? && last.value.exitCode == 0)
    }

    /** program_scheduler_handle_process_state_change. */
    method HandleProcessStateChange(a: Answers)
      requires Consistent() && !daemon.recursive && last.Some? && (state.Running? ==> startMode.Always? || Triggered())
      modifies this, daemon`recursive, cron`entries, monitor`observers
      ensures Ok() && OnlyThis() && NoneSpawned(old(Now()))
      ensures DeathHandled(old(Now()), a)
    {
      hide OnlyLastAlive, Accounted, CronLinked, HasEntry, SameEntriesBut, SameBut, Cron.Valid, Monitor.Valid;
      SameEntriesButItself(cron.entries, Entry(id, this));
      SameButItself(monitor.observers, this);
      assert {} + Owned(None) == {};
      if !state.Running? {
        return;
      }
      var process := last.value;
      var spawn := false;
      if process.state.ExitedState? {
        if process.exitCode == 0 {
          if startMode.Always? {
            spawn := true;
          }
        } else if continueAfterError {
          if startMode.Always? {
            spawn := true;
          }
        } else {
          Stop(None, a);
        }
      } else if process.state.ErrorState? || process.state.KilledState? {
        if continueAfterError {
          if startMode.Always? {
            spawn := true;
          }
        } else {
          Stop(None, a);
        }
      }
      if spawn {
        var ok := Attempt(a.armTimer, a);
        if ok {
          timer := Configured(1000000, 0);
          timerActive := true;
        }
      }
    }

    /** After the death of its process a running scheduler stops if that was an error, unless it
        is told to continue; in always mode the timer for the next process is armed. */
    ghost predicate DeathHandled(was: Snapshot, a: Answers)
      reads this, if last.Some? then {last.value} else {}
    {
      if was.state.Running? && !Busy() && DiedOfError() && !continueAfterError then StoppedBy(was, a) && message == None
      else if was.state.Running? && !Busy() && startMode.Always? then
        if a.armTimer then state.Running? && timer == Once(1000000) && message == was.message
        else StoppedByError(was, a)
      else Unmoved(was)
    }

    /** Whether a process was alive before does not matter. */
    lemma HandledFrom(was: Snapshot, now: Snapshot, a: Answers)
      requires DeathHandled(now, a) && now == was.(busy := now.busy)
      ensures DeathHandled(was, a)
    {
    }

    // ----- program_scheduler_update, _continue, _shutdown -----

    /** program_scheduler_prepare_filesystem. When only the directory for stderr cannot be made,
        the scheduler is stopped with an error, but a success is returned, and the names of
        the files stay those of an earlier update, if there was one. */
    method PrepareFilesystem(p: Preparation) returns (ok: bool)
      requires Consistent() && !daemon.recursive
      modifies this, daemon`recursive, cron`entries, monitor`observers
      ensures Consistent() && Contained() && SameConfig() && NoneSpawned(old(Now())) && !daemon.recursive
      ensures shutdown == old(shutdown) && waitingForBrickd == old(waitingForBrickd)
      ensures old(observerState) != Waiting ==> monitor.observers == old(monitor.observers)
      ensures ok <==> !p.Refused?
      ensures names == if p.Prepared? then OfLastUpdate else Older(old(names))
      ensures if p.Prepared? then
                Unmoved(old(Now())) && cron.entries == old(cron.entries) && monitor.observers == old(monitor.observers)
              else StoppedByError(old(Now()), p.a)
    {
      hide OnlyLastAlive, Accounted, CronLinked, HasEntry, SameEntriesBut, SameBut, Cron.Valid, Monitor.Valid;
      SameEntriesButItself(cron.entries, Entry(id, this));
      SameButItself(monitor.observers, this);
      if p.Prepared? {
        names := OfLastUpdate;
        return true;
      }
      HandleError(p.a);
      names := Older(names);
      ok := p.StderrFails?;
    }

    /** program_scheduler_update. A callback during the registration of the observer may start
        the scheduler; it is then started a second time. */
    method Update(tryStart: bool, t: Turn)
      requires Consistent() && !daemon.recursive && (monitor.observers != [] ==> monitor.waiting)
      modifies this, daemon`recursive, cron`entries, monitor`observers, monitor
      ensures Consistent() && !daemon.recursive && (monitor.observers != [] ==> monitor.waiting)
      ensures Contained() && SameConfig() && shutdown == old(shutdown)
      ensures old(Ok()) || (tryStart && (daemon.connected || !old(waitingForBrickd))) ==> Ok()
      ensures waitingForBrickd <==> old(waitingForBrickd) && (shutdown || !daemon.connected)
      ensures names == if shutdown then old(names)
                       else if t.preparation.Prepared? then OfLastUpdate else Older(old(names))
      ensures Updated(old(Now()), tryStart, t)
      ensures old(observerState.Pending?) && !shutdown && t.preparation.Prepared? && tryStart && !startMode.Never? ==>
                Observed(t.monitor, old(monitor.present), old(monitor.waiting))
      ensures shutdown || (t.preparation.Prepared? && !tryStart) ==> cron.entries == old(cron.entries)
                                                                     && monitor.observers == old(monitor.observers)
    {
      hide OnlyLastAlive, Accounted, CronLinked, HasEntry, SameEntriesBut, SameBut, Cron.Valid, Monitor.Valid,
           Scheduler.Starts, Process.IsNew;
      if shutdown {
        SameEntriesButItself(cron.entries, Entry(id, this));
        SameButItself(monitor.observers, this);
        return;
      }
      if waitingForBrickd && daemon.connected {
        waitingForBrickd := false;
      }
      if tryStart {
        UpdateAndStart(t);
      } else {
        var prepared := PrepareFilesystem(t.preparation);
      }
    }

    /** The part behind the flags, for a scheduler that is to start. */
    method UpdateAndStart(t: Turn)
      requires Consistent() && !daemon.recursive && (monitor.observers != [] ==> monitor.waiting)
      requires !shutdown && !(waitingForBrickd && daemon.connected)
      modifies this, daemon`recursive, cron`entries, monitor`observers, monitor
      ensures Consistent() && !daemon.recursive && (monitor.observers != [] ==> monitor.waiting)
      ensures Contained() && SameConfig() && !shutdown && waitingForBrickd == old(waitingForBrickd)
      ensures old(Ok()) || !waitingForBrickd ==> Ok()
      ensures names == if t.preparation.Prepared? then OfLastUpdate else Older(old(names))
      ensures Updated(old(Now()), true, t)
      ensures old(observerState.Pending?) && t.preparation.Prepared? && !startMode.Never? ==>
                Observed(t.monitor, old(monitor.present), old(monitor.waiting))
    {
      hide OnlyLastAlive, Accounted, CronLinked, HasEntry, SameEntriesBut, SameBut, Cron.Valid, Monitor.Valid,
           Scheduler.Starts, Process.IsNew;
      var prepared := PrepareFilesystem(t.preparation);
      if !prepared {
        return;
      }
      ghost var entries, observers := cron.entries, monitor.observers;
      TryStart(t);
      SameEntriesButTransitive(old(cron.entries), entries, cron.entries, Entry(id, this));
      SameButTransitive(old(monitor.observers), observers, monitor.observers, this);
    }

    /** What an update comes to. After a failure the scheduler is stopped with an error; but a
        failure of the directory for stderr alone does not keep it from being started again. */
    ghost predicate Updated(was: Snapshot, tryStart: bool, t: Turn)
      reads this, if last.Some? then {last.value} else {}
    {
      if shutdown || (t.preparation.Prepared? && !tryStart) then Unmoved(was)
      else if t.preparation.Refused? || !tryStart then NoneSpawned(was) && StoppedByError(was, t.preparation.a)
      else if startMode.Never? then
        && NoneSpawned(was) && state.Stopped? && observerState.Finished? && !cronActive
        && if t.preparation.Prepared? then StoppedBy(was, t.first) && message == was.message
           else message.Some? <==> t.preparation.a.wrapMessage
      else if t.preparation.Prepared? then Begun(was, t.first, t.second)
      else if waitingForBrickd then NoneSpawned(was) && StoppedByError(was, t.preparation.a)
      else observerState.Finished? && (state.Running? <==> Starts(t.second, false, was.busy))
    }

    method TryStart(t: Turn)
      requires Consistent() && !daemon.recursive && (monitor.observers != [] ==> monitor.waiting) && !shutdown
      modifies this, daemon`recursive, cron`entries, monitor`observers, monitor
      ensures Consistent() && !daemon.recursive && (monitor.observers != [] ==> monitor.waiting)
      ensures Contained() && Steady()
      ensures old(Ok()) || !waitingForBrickd ==> Ok()
      ensures if startMode.Never? then
                NoneSpawned(old(Now())) && StoppedBy(old(Now()), t.first) && message == old(message)
              else Begun(old(Now()), t.first, t.second)
      ensures old(observerState.Pending?) && !startMode.Never? ==>
                Observed(t.monitor, old(monitor.present), old(monitor.waiting))
    {
      hide OnlyLastAlive, Accounted, CronLinked, HasEntry, SameEntriesBut, SameBut, Cron.Valid, Monitor.Valid;
      if startMode.Never? {
        StopKeepingMessage(t.first);
        return;
      }
      Begin(t.monitor, t.first, t.second);
    }

    /** What trying to start comes to. A scheduler that waits for its observer, or that has only
        Brick Daemon to wait for, stays as it is. Otherwise it starts, unless it has just been
        registered as an observer. The callback may have started it already, even if it still
        waits for Brick Daemon; if it does not, it then starts a second time, and may find an entry
        and a live process of its own. */
    ghost predicate Begun(was: Snapshot, a: Answers, b: Answers)
      reads this, if last.Some? then {last.value} else {}
    {
      if was.observerState.Waiting? || (was.observerState.Finished? && waitingForBrickd) then Unmoved(was)
      else if was.observerState.Finished? then Started(was, b)
      else if observerState.Waiting? then NoneSpawned(was) && state == was.state && message == was.message
      else if waitingForBrickd then
        && observerState.Finished?
        && if calledBack then Started(was, a) else NoneSpawned(was) && state == was.state && message == was.message
      else
        && observerState.Finished?
        && (state.Running? ==> Starts(b, true, true) && message == None)
        && (Starts(b, false, false) ==> state.Running?)
    }

    /** Waits for the observer first, if need be. */
    method Begin(m: MonitorAnswers, a: Answers, b: Answers)
      requires Consistent() && !daemon.recursive && (monitor.observers != [] ==> monitor.waiting) && !shutdown
      modifies this, daemon`recursive, cron`entries, monitor`observers, monitor
      ensures Consistent() && !daemon.recursive && (monitor.observers != [] ==> monitor.waiting)
      ensures Contained() && Steady()
      ensures old(Ok()) || !waitingForBrickd ==> Ok()
      ensures Begun(old(Now()), a, b)
      ensures old(observerState.Pending?) ==> Observed(m, old(monitor.present), old(monitor.waiting))
    {
      hide OnlyLastAlive, Accounted, CronLinked, HasEntry, SameEntriesBut, SameBut, Cron.Valid, Monitor.Valid,
           Scheduler.NewProcess, Scheduler.Triggered, Scheduler.Busy, Scheduler.ProcessesOk;
      SameEntriesButItself(cron.entries, Entry(id, this));
      SameButItself(monitor.observers, this);
      if observerState.Pending? {
        Observe(m, a);
      }
      ghost var entries, observers := cron.entries, monitor.observers;
      if observerState.Finished? && !waitingForBrickd {
        Start(b);
        SameEntriesButTransitive(old(cron.entries), entries, cron.entries, Entry(id, this));
        SameButTransitive(old(monitor.observers), observers, monitor.observers, this);
      }
    }

    /** Whether the scheduler is registered as an observer, and whether it is called back. */
    ghost predicate Observed(m: MonitorAnswers, present: bool, waiting: bool)
      reads this
    {
      && (observerState.Waiting? <==> if present then m.appended && waiting
                                      else m.searched && m.appended && !m.found && m.timer)
      && (calledBack <==> if present then m.appended && !waiting else m.searched && m.appended && m.found)
    }

    method Observe(m: MonitorAnswers, a: Answers)
      requires Consistent() && !daemon.recursive && (monitor.observers != [] ==> monitor.waiting)
      requires observerState.Pending?
      modifies this, daemon`recursive, cron`entries, monitor`observers, monitor
      ensures Ok() && !daemon.recursive && (monitor.observers != [] ==> monitor.waiting)
      ensures Contained() && Steady() && !observerState.Pending?
      ensures Observed(m, old(monitor.present), old(monitor.waiting))
      ensures if calledBack then Started(old(Now()), a)
              else NoneSpawned(old(Now())) && state == old(state) && message == old(message)
    {
      hide OnlyLastAlive, Accounted, CronLinked, HasEntry, SameEntriesBut, SameBut, Cron.Valid, Monitor.Valid,
           Scheduler.NewProcess, Scheduler.Triggered;
      observerState := Waiting;
      var added := monitor.AddObserver(LXPANEL_TIMEOUT, this, m, a);
      if !added {
        observerState := Finished;
      }
    }

    /** program_set_schedule, once the new configuration is saved. Requests come from Brick
        Daemon, so it is connected; this is why no scheduler that is running can be left
        without the trigger of its new mode. */
    method SetSchedule(startMode: StartMode, continueAfterError: bool, startInterval: nat, t: Turn)
      requires Ok() && !daemon.recursive && (monitor.observers != [] ==> monitor.waiting) && daemon.connected
      modifies this, daemon`recursive, cron`entries, monitor`observers, monitor
      ensures Ok() && !daemon.recursive && (monitor.observers != [] ==> monitor.waiting)
      ensures this.startMode == startMode && this.continueAfterError == continueAfterError
      ensures this.startInterval == startInterval && shutdown == old(shutdown)
      ensures Contained() && Updated(old(Now()), true, t)
      ensures waitingForBrickd <==> old(waitingForBrickd) && shutdown
    {
      hide OnlyLastAlive, Accounted, CronLinked, HasEntry, SameEntriesBut, SameBut, Cron.Valid, Monitor.Valid;
      this.startMode, this.continueAfterError, this.startInterval := startMode, continueAfterError, startInterval;
      Update(true, t);
    }

    /** program_scheduler_continue. Requests come from Brick Daemon, so nobody waits for it. */
    method Continue(a: Answers)
      requires Ok() && !daemon.recursive && (waitingForBrickd ==> shutdown)
      modifies this, daemon`recursive, cron`entries, monitor`observers
      ensures Ok() && OnlyThis()
      ensures if shutdown || old(state.Running?) || startMode.Never? then Unmoved(old(Now()))
              else Started(old(Now()), a)
    {
      hide OnlyLastAlive, Accounted, CronLinked, HasEntry, SameEntriesBut, SameBut, Cron.Valid, Monitor.Valid;
      SameEntriesButItself(cron.entries, Entry(id, this));
      SameButItself(monitor.observers, this);
      if shutdown {
        return;
      }
      if state.Stopped? && !startMode.Never? {
        Start(a);
      }
    }

    /** program_scheduler_shutdown; the last process is sent a signal if it is alive. */
    method Shutdown(a: Answers) returns (killed: bool)
      requires Ok() && !daemon.recursive
      modifies this, daemon`recursive, cron`entries, monitor`observers
      ensures Ok() && !daemon.recursive && Contained() && SameConfig() && NoneSpawned(old(Now()))
      ensures waitingForBrickd == old(waitingForBrickd) && names == old(names) && shutdown && state.Stopped?
      ensures !HasEntry(cron.entries, id) && this !in monitor.observers
      ensures old(observerState) != Waiting ==> monitor.observers == old(monitor.observers)
      ensures killed <==> !old(shutdown) && Busy()
      ensures if old(shutdown) then Unmoved(old(Now())) else StoppedBy(old(Now()), a) && message == None
    {
      hide OnlyLastAlive, Accounted, HasEntry, SameEntriesBut, SameBut, Cron.Valid, Monitor.Valid;
      SameEntriesButItself(cron.entries, Entry(id, this));
      SameButItself(monitor.observers, this);
      if shutdown {
        return false;
      }
      shutdown := true;
      assert {} + Owned(None) == {};
      Stop(None, a);
      killed := last.Some? && last.value.state.Alive();
    }
  }
}
