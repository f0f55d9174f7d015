/** All schedulers together, with everything that can happen to them: timers, cron, child
    processes, the process monitor, Brick Daemon coming and going, and requests. */
module SchedulerWorld {
  import opened Wrappers
  import opened ProgramTypes
  import opened Processes
  import opened Scheduling

  lemma CronLinkedStays(t: Scheduler, active: bool, a: seq<Entry>, b: seq<Entry>, mine: Entry)
    requires CronLinked(t, active, a) && SameEntriesBut(a, b, mine) && mine.programId != t.id
    ensures CronLinked(t, active, b)
  {
  }

  method WaitAmong(last: Option<Process>, ghost spawned: seq<Process>, p: Process, status: WaitStatus, waited: bool,
                   written: bool)
    requires OnlyLastAlive(last, spawned) && p in spawned && p.waiting
    modifies p
    ensures OnlyLastAlive(last, spawned) && p.state == old(p.state)
    ensures p.waiting <==> waited && written && ChangeOf(status).state.Alive()
    ensures p.pipe == if waited && written then old(p.pipe) + [ChangeOf(status)] else old(p.pipe)
  {
    hide Process.Valid;
    assert p.Valid() by { var i :| 0 <= i < |spawned| && spawned[i] == p; }
    p.WaitOnce(status, waited, written);
    assert forall i | 0 <= i < |spawned| && spawned[i] != p :: spawned[i].Valid() == old(spawned[i].Valid());
  }

  /** Only the last process can have something to report. */
  method ReadAmong(last: Option<Process>, ghost spawned: seq<Process>, p: Process)
    requires OnlyLastAlive(last, spawned) && p in spawned && p.pipe != []
    modifies p
    ensures OnlyLastAlive(last, spawned)
    ensures last == Some(p) && old(p.state.Alive()) && p.state == old(p.pipe[0]).state
            && p.exitCode == old(p.pipe[0]).exitCode
  {
    hide Process.Valid;
    ghost var i :| 0 <= i < |spawned| && spawned[i] == p;
    var released := p.ReadChange();
    assert i == |spawned| - 1;
    assert forall k | 0 <= k < |spawned| && spawned[k] != p :: spawned[k].Valid() == old(spawned[k].Valid());
  }

  lemma NoEntry(entries: seq<Entry>, id: nat)
    requires forall e | e in entries :: e.programId != id
    ensures !HasEntry(entries, id)
  {
    assert forall i: nat | i < |entries| :: entries[i] in entries;
  }

  lemma LastIsSpawned(last: Option<Process>, spawned: seq<Process>)
    requires OnlyLastAlive(last, spawned)
    ensures last.Some? ==> last.value in spawned
  {
  }

  ghost function Backwards<T>(s: seq<T>): (r: seq<T>)
    ensures |r| == |s| && forall i | 0 <= i < |s| :: r[i] == s[|s| - 1 - i]
  {
    seq(|s|, i requires 0 <= i < |s| => s[|s| - 1 - i])
  }

  ghost function From(s: seq<Scheduler>, i: nat): set<Scheduler> {
    set k | i <= k < |s| :: s[k]
  }

  lemma FromOneMore(s: seq<Scheduler>, i: nat)
    requires i < |s| && NoDuplicates(s)
    ensures From(s, i) == From(s, i + 1) + {s[i]} && s[i] !in From(s, i + 1)
    ensures Backwards(s)[..|s| - i] == Backwards(s)[..|s| - i - 1] + [s[i]]
  {
  }

  lemma FromEnds(s: seq<Scheduler>)
    ensures From(s, |s|) == {} && forall o :: o in From(s, 0) <==> o in s
    ensures Backwards(s)[..0] == [] && Backwards(s)[..|s|] == Backwards(s)
  {
  }

  class World {
    const daemon: Daemon
    const cron: Cron
    const monitor: Monitor
    var schedulers: set<Scheduler>
    ghost var processes: set<Process>
    ghost var unwoken: set<Scheduler>     // to be told that Brick Daemon is connected

    /** Scheduler s belongs to this world. */
    ghost predicate Known(s: Scheduler)
      reads `processes, s
    {
      && s.daemon == daemon && s.cron == cron && s.monitor == monitor
      && (forall p | p in s.spawned :: p in processes)
      && (s.last.Some? ==> s.last.value in processes)
    }

    ghost predicate AllOk()
      reads `schedulers, `processes, cron, monitor, schedulers, processes
    {
      forall s | s in schedulers :: Known(s) && s.Ok()
    }

    /** Program identifiers are unique, and every process has one scheduler. */
    ghost predicate Apart()
      reads `schedulers, schedulers
    {
      forall s, t | s in schedulers && t in schedulers && s != t ::
        s.id != t.id && forall p | p in s.spawned :: p !in t.spawned
    }

    /** Whoever gets called back is a scheduler of this world. */
    ghost predicate CallbacksOk()
      reads `schedulers, cron, monitor, schedulers
    {
      && cron.Valid() && monitor.Valid()
      && (forall o | o in monitor.observers :: o in schedulers)
      && (forall e | e in cron.entries :: e.notify in schedulers && e.notify.id == e.programId)
    }

    /** While Brick Daemon is connected nobody waits for it, except those still to be told. */
    ghost predicate Awake()
      reads `schedulers, `unwoken, daemon, schedulers
    {
      forall s | s in schedulers && s !in unwoken && s.waitingForBrickd && daemon.connected :: s.shutdown
    }

    ghost predicate Sound()
      reads this, daemon, cron, monitor, schedulers, processes
    {
      AllOk() && Apart() && CallbacksOk() && Awake() && !daemon.recursive
    }

    /** The invariant between events; in particular nobody waits for an observation that is over. */
    ghost predicate Valid()
      reads this, daemon, cron, monitor, schedulers, processes
    {
      Sound() && unwoken == {} && (monitor.observers != [] ==> monitor.waiting)
    }

    constructor ()
      ensures Valid() && schedulers == {} && processes == {} && !daemon.connected
      ensures fresh(daemon) && fresh(cron) && fresh(monitor)
    {
      daemon := new Daemon();
      cron := new Cron();
      monitor := new Monitor();
      schedulers, processes, unwoken := {}, {}, {};
    }

    twostate predicate Stays(t: Scheduler)
      reads t, t.spawned
    {
      unchanged(t) && forall p | p in t.spawned :: unchanged(p)
    }

    /** What one scheduler does leaves the processes of another alone, ... */
    twostate lemma ProcessesStay(t: Scheduler)
      requires old(AllOk()) && t in old(schedulers) && Stays(t)
      ensures t.ProcessesOk() && t.Busy() == old(t.Busy()) && t.Triggered() == old(t.Triggered())
    {
      assert old(Known(t) && t.Ok());
      forall i | 0 <= i < |t.spawned|
        ensures t.spawned[i].Valid() && t.spawned[i].state == old(t.spawned[i].state)
      {
        assert t.spawned[i] in t.spawned;
      }
      hide Process.Valid;
    }

    /** ... and its entries in the tables. */
    twostate lemma LinksStay(new s: Scheduler, t: Scheduler)
      requires old(AllOk()) && t in old(schedulers) && Stays(t) && t != s && t.id != s.id
      requires cron.Valid() && monitor.Valid()
      requires SameEntriesBut(old(cron.entries), cron.entries, Entry(s.id, s))
      requires SameBut(old(monitor.observers), monitor.observers, s)
      ensures t.Linked(false)
    {
      hide HasEntry, Cron.Valid, Monitor.Valid;
      assert old(Known(t) && t.Ok());
      CronLinkedStays(t, t.cronActive, old(cron.entries), cron.entries, Entry(s.id, s));
    }

    twostate lemma OtherStays(new s: Scheduler, t: Scheduler)
      requires old(AllOk()) && t in old(schedulers) && Stays(t) && t != s && t.id != s.id
      requires cron.Valid() && monitor.Valid()
      requires SameEntriesBut(old(cron.entries), cron.entries, Entry(s.id, s))
      requires SameBut(old(monitor.observers), monitor.observers, s)
      ensures t.Ok()
    {
      assert old(Known(t) && t.Ok());
      ProcessesStay(t);
      LinksStay(s, t);
      hide OnlyLastAlive, CronLinked, HasEntry, Accounted, Cron.Valid, Monitor.Valid;
    }

    /** A scheduler did something on its own: it is in order, and its changes to the tables
        are about itself only. */
    twostate predicate Acted(s: Scheduler)
      reads this, s, s.spawned, if s.last.Some? then {s.last.value} else {}
      reads daemon, cron, monitor, schedulers, processes
    {
      && old(processes) <= processes
      && s in schedulers && schedulers == old(schedulers) && unwoken == old(unwoken)
      && Known(s) && s.Ok() && !daemon.recursive && daemon.connected == old(daemon.connected)
      && (s.waitingForBrickd && daemon.connected ==> s.shutdown || s in unwoken)
      && s.Contained()
      && (forall t | t in schedulers && t != s :: unchanged(t))
      && (forall p | p in old(processes) && p !in old(s.spawned) :: unchanged(p))
    }

    twostate lemma AllStillOk(s: Scheduler)
      requires old(Sound()) && Acted(s) && cron.Valid() && monitor.Valid()
      ensures AllOk()
    {
      hide Scheduler.Ok, SameEntriesBut, SameBut, Cron.Valid, Monitor.Valid;
      forall t | t in schedulers && t != s
        ensures Known(t) && t.Ok()
      {
        assert old(Known(t) && t.Ok());
        OtherStays(s, t);
      }
    }

    twostate lemma StillApart(s: Scheduler)
      requires old(Sound()) && Acted(s)
      ensures Apart()
    {
      hide Scheduler.Ok, SameEntriesBut, SameBut, CallbacksOk, Awake;
      forall t, u | t in schedulers && u in schedulers && t != u
        ensures t.id != u.id && forall p | p in t.spawned :: p !in u.spawned
      {
        assert old(Known(t)) && old(Known(u));
      }
    }

    /** What one scheduler does leaves the others alone. */
    twostate lemma StepKeeps(s: Scheduler)
      requires old(Sound()) && Acted(s)
      ensures Sound()
    {
      assert cron.Valid() && monitor.Valid() by {
        hide Cron.Valid, Monitor.Valid, AllOk, Apart, Awake, CallbacksOk;
      }
      AllStillOk(s);
      StillApart(s);
      hide AllOk, Apart, Scheduler.Ok, HasEntry, Cron.Valid, Monitor.Valid;
      assert CallbacksOk();
      assert Awake();
    }

    /** What holds from one event to any later one: shutting down is final, and so is death; no
        process is forgotten, and one about which nothing more is reported stays as it is. */
    twostate predicate Onward()
      reads this, schedulers, processes
    {
      && old(schedulers) <= schedulers && fresh(schedulers - old(schedulers))
      && old(processes) <= processes && fresh(processes - old(processes))
      && (forall s | s in old(schedulers) :: old(s.shutdown) ==> s.shutdown)
      && (forall s | s in old(schedulers) :: old(s.observerState).Stage() <= s.observerState.Stage())
      && (forall s | s in old(schedulers) :: old(s.spawned) <= s.spawned)
      && (forall p | p in old(processes) :: !old(p.state.Alive()) ==> !p.state.Alive())
      && (forall p | p in old(processes) :: old(p.Silent()) ==> p.Silent() && p.state == old(p.state))
    }

    twostate lemma AllGoOn()
      requires schedulers == old(schedulers) && old(processes) <= processes && fresh(processes - old(processes))
      requires forall s | s in schedulers :: s.GoesOn(old(s.Now()))
      requires forall p | p in old(processes) :: unchanged(p)
      ensures Onward()
    {
    }

    twostate lemma ThisGoesOn(s: Scheduler)
      requires Acted(s) && fresh(processes - old(processes))
      requires s.GoesOn(old(s.Now()))
      requires forall p | p in old(processes) ::
                 unchanged(p) || (!old(p.Silent()) && (old(p.state.Alive()) || p.state == old(p.state)))
      ensures Onward()
    {
      hide Scheduler.Ok, Known, Scheduler.Contained;
    }

    /** A process whose waiting thread gave up keeps its scheduler from ever spawning another. */
    twostate lemma StuckForGood(s: Scheduler)
      requires old(Sound()) && Sound() && Onward() && s in old(schedulers)
      requires old(s.Busy()) && old(s.last.value.Silent())
      ensures s.Busy() && s.last == old(s.last) && s.spawned == old(s.spawned) && s.last.value.Silent()
    {
      hide Apart, CallbacksOk, Awake, Accounted, CronLinked, Cron.Valid, Monitor.Valid, Process.Valid;
      var p, n := old(s.last.value), |old(s.spawned)|;
      assert old(Known(s) && s.Ok()) && Known(s) && s.Ok();
      assert s.spawned[n - 1] == p;
      assert p.state.Alive();
    }

    /** What the invariant says about one scheduler. */
    lemma Member(s: Scheduler)
      requires Sound() && s in schedulers
      ensures Known(s) && s.Ok() && (s.waitingForBrickd && daemon.connected ==> s.shutdown || s in unwoken)
      ensures s.last.Some? ==> s.last.value in s.spawned
      ensures forall p | p in s.spawned :: p in processes
      ensures s.observerState.Waiting? ==> monitor.observers != []
    {
      hide CronLinked, Accounted, CallbacksOk, Apart, Cron.Valid, Monitor.Valid;
      LastIsSpawned(s.last, s.spawned);
    }

    /** The processes of a scheduler that has just acted are processes of this world. */
    method Adopt(s: Scheduler)
      requires s.Ok() && s.daemon == daemon && s.cron == cron && s.monitor == monitor
      modifies this`processes
      ensures processes == old(processes) + (set p | p in s.spawned) && Known(s)
    {
      LastIsSpawned(s.last, s.spawned);
      processes := processes + set p | p in s.spawned;
    }

    // ----- events -----

    /** The timer of a scheduler expires. */
    method TimerExpired(s: Scheduler, a: Answers)
      requires Valid() && s in schedulers && s.timer != Off
      modifies this`processes, schedulers, daemon, cron, monitor
      ensures Valid() && Onward() && daemon.connected == old(daemon.connected)
      ensures s.TimerHandled(old(s.Now()), a) && s.Steady()
      ensures forall t | t in schedulers && t != s :: unchanged(t)
    {
      hide Onward, AllOk, Apart, CallbacksOk, Awake, Scheduler.Ok, Scheduler.ProcessesOk, SameEntriesBut, SameBut;
      Member(s);
      s.HandleTimer(a);
      Adopt(s);
      StepKeeps(s);
      ThisGoesOn(s);
    }

    /** The entry of a program is notified. */
    method CronFired(s: Scheduler, a: Answers)
      requires Valid() && s in schedulers
      modifies this`processes, schedulers, daemon, cron, monitor
      ensures Valid() && Onward() && daemon.connected == old(daemon.connected)
      ensures s.CronHandled(old(s.Now()), a) && s.Steady()
      ensures forall t | t in schedulers && t != s :: unchanged(t)
    {
      hide Onward, AllOk, Apart, CallbacksOk, Awake, Scheduler.Ok, Scheduler.ProcessesOk, SameEntriesBut, SameBut;
      Member(s);
      s.HandleCron(a);
      Adopt(s);
      StepKeeps(s);
      ThisGoesOn(s);
    }

    /** cron_handle_notification, for a notification of this run of the daemon. */
    method CronNotified(programId: nat, a: Answers)
      requires Valid()
      modifies this`processes, schedulers, daemon, cron, monitor
      ensures Valid() && Onward() && daemon.connected == old(daemon.connected)
      ensures forall t | t in schedulers ::
                if t.id == programId && old(t.cronActive) then t.CronHandled(old(t.Now()), a) else unchanged(t)
    {
      hide AllOk, Apart, CallbacksOk, Awake, Cron.Valid, Monitor.Valid, HasEntry;
      var i := cron.FindEntry(programId);
      if i < |cron.entries| {
        Notified(i, programId);
        CronFired(cron.entries[i].notify, a);
      } else {
        NobodyNotified(programId);
      }
    }

    lemma Notified(i: nat, programId: nat)
      requires Sound() && EntryAt(cron.entries, i, programId)
      ensures var s := cron.entries[i].notify;
              s in schedulers && s.cronActive && forall t | t in schedulers :: t.id == programId <==> t == s
    {
      hide OnlyLastAlive, Accounted, Monitor.Valid, Cron.Valid;
      assert cron.entries[i] in cron.entries;
    }

    lemma NobodyNotified(programId: nat)
      requires Sound() && !HasEntry(cron.entries, programId)
      ensures forall t | t in schedulers && t.id == programId :: !t.cronActive
    {
      hide OnlyLastAlive, Accounted, Monitor.Valid, Cron.Valid, HasEntry;
    }

    /** The waiting thread of a child process goes around once; this is nothing to the daemon
        until it reads the change. */
    method WaitFor(s: Scheduler, p: Process, status: WaitStatus, waited: bool, written: bool)
      requires Sound() && s in schedulers && p in s.spawned && p.waiting
      modifies p
      ensures s.Ok() && p.state == old(p.state)
      ensures p.waiting <==> waited && written && ChangeOf(status).state.Alive()
      ensures p.pipe == if waited && written then old(p.pipe) + [ChangeOf(status)] else old(p.pipe)
    {
      hide AllOk, Apart, CallbacksOk, Awake, OnlyLastAlive, Accounted, CronLinked, HasEntry, Cron.Valid,
           Monitor.Valid, Process.Valid;
      Member(s);
      WaitAmong(s.last, s.spawned, p, status, waited, written);
    }

    method ChildWaited(s: Scheduler, p: Process, status: WaitStatus, waited: bool, written: bool)
      requires Valid() && s in schedulers && p in s.spawned && p.waiting
      modifies p
      ensures Valid() && Onward() && p.state == old(p.state)
      ensures p.waiting <==> waited && written && ChangeOf(status).state.Alive()
      ensures p.pipe == if waited && written then old(p.pipe) + [ChangeOf(status)] else old(p.pipe)
      ensures forall t | t in schedulers :: unchanged(t)
    {
      hide Onward, AllOk, Apart, CallbacksOk, Awake, Scheduler.Ok, SameEntriesBut, SameBut;
      Member(s);
      WaitFor(s, p, status, waited, written);
      SameEntriesButItself(cron.entries, Entry(s.id, s));
      SameButItself(monitor.observers, s);
      StepKeeps(s);
      ThisGoesOn(s);
    }

    /** Only the last process of a scheduler can have something to report. */
    method ReadFrom(s: Scheduler, p: Process)
      requires Sound() && s in schedulers && p in s.spawned && p.pipe != []
      modifies p
      ensures old(s.last) == Some(p) && old(p.state.Alive()) && p.state == old(p.pipe[0]).state
              && p.exitCode == old(p.pipe[0]).exitCode
      ensures s.Consistent() && (s.state.Running? ==> s.startMode.Always? || s.Triggered())
    {
      hide AllOk, Apart, CallbacksOk, Awake, OnlyLastAlive, Accounted, CronLinked, HasEntry, Cron.Valid,
           Monitor.Valid, Process.Valid;
      Member(s);
      ReadAmong(s.last, s.spawned, p);
    }

    /** process_handle_state_change, with the callback to the scheduler, which so looks at the
        right process. */
    method ProcessChanged(s: Scheduler, p: Process, a: Answers)
      requires Valid() && s in schedulers && p in s.spawned && p.pipe != []
      modifies this`processes, p, schedulers, daemon, cron, monitor
      ensures Valid() && Onward() && daemon.connected == old(daemon.connected)
      ensures old(s.last) == Some(p) && old(p.state.Alive()) && p.state == old(p.pipe[0].state)
      ensures s.DeathHandled(old(s.Now()), a) && s.Steady()
      ensures forall t | t in schedulers && t != s :: unchanged(t)
    {
      hide Onward, AllOk, Apart, CallbacksOk, Awake, Scheduler.Ok, Scheduler.Consistent, Scheduler.Triggered,
           Scheduler.Same, Scheduler.DeathHandled, SameEntriesBut, SameBut;
      Member(s);
      ReadFrom(s, p);
      ghost var now := s.Now();
      s.HandleProcessStateChange(a);
      s.HandledFrom(old(s.Now()), now, a);
      StepKeeps(s);
      ThisGoesOn(s);
    }

    // ----- requests -----

    /** program_scheduler_continue. */
    method Continue(s: Scheduler, a: Answers)
      requires Valid() && s in schedulers && daemon.connected
      modifies this`processes, schedulers, daemon, cron, monitor
      ensures Valid() && Onward() && daemon.connected == old(daemon.connected)
      ensures if s.shutdown || old(s.state.Running?) || s.startMode.Never? then s.Unmoved(old(s.Now()))
              else s.Started(old(s.Now()), a)
      ensures s.Steady()
      ensures forall t | t in schedulers && t != s :: unchanged(t)
    {
      hide Onward, AllOk, Apart, CallbacksOk, Awake, Scheduler.Ok, Scheduler.ProcessesOk, HasEntry, SameEntriesBut,
           SameBut, Scheduler.Started, Scheduler.Unmoved, Process.Valid;
      Member(s);
      s.Continue(a);
      Adopt(s);
      StepKeeps(s);
      ThisGoesOn(s);
    }

    /** program_start. A process may be spawned even after the scheduler was shut down. */
    method StartProcess(s: Scheduler, a: Answers)
      requires Valid() && s in schedulers
      modifies this`processes, schedulers, daemon, cron, monitor
      ensures Valid() && Onward() && daemon.connected == old(daemon.connected)
      ensures s.SpawnedBy(old(s.Now()), a) && s.Steady() && s.observerState.Finished?
      ensures forall t | t in schedulers && t != s :: unchanged(t)
    {
      hide Onward, AllOk, Apart, CallbacksOk, Awake, Scheduler.Ok, Scheduler.ProcessesOk, SameEntriesBut, SameBut;
      Member(s);
      s.StartProcess(a);
      Adopt(s);
      StepKeeps(s);
      ThisGoesOn(s);
    }

    /** program_scheduler_shutdown. */
    method Shutdown(s: Scheduler, a: Answers)
      requires Valid() && s in schedulers
      modifies schedulers, daemon, cron, monitor
      ensures Valid() && Onward() && daemon.connected == old(daemon.connected)
      ensures s.shutdown && s.state.Stopped? && !HasEntry(cron.entries, s.id) && s !in monitor.observers
      ensures if old(s.shutdown) then s.Unmoved(old(s.Now())) else s.StoppedBy(old(s.Now()), a) && s.message == None
      ensures forall t | t in schedulers && t != s :: unchanged(t)
    {
      hide Onward, AllOk, Apart, CallbacksOk, Awake, Scheduler.Ok, Scheduler.StoppedBy, Scheduler.Same, HasEntry,
           SameEntriesBut, SameBut;
      Member(s);
      var killed := s.Shutdown(a);
      StepKeeps(s);
      ThisGoesOn(s);
    }

    /** program_scheduler_update, after any change of the configuration of the program but its
        schedule. */
    method Update(s: Scheduler, tryStart: bool, t: Turn)
      requires Sound() && s in schedulers && (monitor.observers != [] ==> monitor.waiting)
      modifies this`processes, schedulers, daemon, cron, monitor
      ensures Sound() && (monitor.observers != [] ==> monitor.waiting)
      ensures Onward() && daemon.connected == old(daemon.connected)
      ensures daemon.connected ==> s.waitingForBrickd ==> s.shutdown
      ensures s.Updated(old(s.Now()), tryStart, t)
      ensures forall x | x in schedulers && x != s :: unchanged(x)
    {
      hide Onward, AllOk, Apart, CallbacksOk, Awake, Scheduler.Ok, Scheduler.ProcessesOk, Scheduler.StoppedBy,
           Scheduler.Same, Scheduler.Starts, HasEntry, SameEntriesBut, SameBut, Scheduler.Updated,
           Scheduler.ConsistentBut, ReadSoFar;
      Member(s);
      InOrder(s);
      s.Update(tryStart, t);
      Adopt(s);
      StepKeeps(s);
      ThisGoesOn(s);
    }

    /** program_set_command and program_set_stdio_redirection update without starting, the
        definition of a program and Brick Daemon starting. */
    method Updated(s: Scheduler, tryStart: bool, t: Turn)
      requires Valid() && s in schedulers
      modifies this`processes, schedulers, daemon, cron, monitor
      ensures Valid() && Onward() && daemon.connected == old(daemon.connected)
      ensures s.Updated(old(s.Now()), tryStart, t)
      ensures forall x | x in schedulers && x != s :: unchanged(x)
    {
      hide Sound;
      Update(s, tryStart, t);
    }

    lemma InOrder(s: Scheduler)
      requires s.Ok()
      ensures s.Consistent()
    {
    }

    /** program_set_schedule. */
    method SetSchedule(s: Scheduler, startMode: StartMode, continueAfterError: bool, startInterval: nat, t: Turn)
      requires Valid() && s in schedulers && daemon.connected
      modifies this`processes, schedulers, daemon, cron, monitor
      ensures Valid() && Onward() && daemon.connected
      ensures s.startMode == startMode && s.continueAfterError == continueAfterError
      ensures s.startInterval == startInterval && s.Updated(old(s.Now()), true, t)
      ensures forall x | x in schedulers && x != s :: unchanged(x)
    {
      hide Onward, AllOk, Apart, CallbacksOk, Awake, Scheduler.Ok, Scheduler.ProcessesOk, HasEntry, SameEntriesBut,
           SameBut;
      Member(s);
      s.SetSchedule(startMode, continueAfterError, startInterval, t);
      Adopt(s);
      StepKeeps(s);
      ThisGoesOn(s);
    }

    /** A program is defined or loaded: program_scheduler_create. */
    method Register(id: nat, display: bool, startMode: StartMode, continueAfterError: bool, startInterval: nat)
      returns (s: Scheduler)
      requires Valid() && forall t | t in schedulers :: t.id != id
      modifies this`schedulers
      ensures Valid() && Onward() && fresh(s) && schedulers == old(schedulers) + {s}
      ensures s.id == id && s.state.Stopped? && !s.shutdown && s.waitingForBrickd == !daemon.connected
      ensures s.startMode == startMode && s.continueAfterError == continueAfterError && s.startInterval == startInterval
      ensures s.spawned == [] && s.last == None
    {
      hide Scheduler.Ok, OnlyLastAlive, Cron.Valid, Monitor.Valid, EndsDead;
      NoEntry(cron.entries, id);
      s := new Scheduler(id, daemon, cron, monitor, display, startMode, continueAfterError, startInterval);
      assert s.last == None by { EmptyOnly(s); }
      schedulers := schedulers + {s};
    }

    lemma EmptyOnly(s: Scheduler)
      requires s.Ok() && s.spawned == []
      ensures s.last == None
    {
    }

    // ----- the process monitor -----

    /** process_monitor_update_observation, on every tick of the search timer. When the process
        was found or the timeout is used up, every observer is called exactly once, the last one
        first, although each removes itself from the list that is being walked. */
    method Tick(found: bool, answers: Scheduler -> Answers) returns (ghost called: seq<Scheduler>)
      requires Valid() && monitor.present && monitor.waiting
      modifies this`processes, schedulers, daemon, cron, monitor
      ensures Valid() && Onward() && daemon.connected == old(daemon.connected)
      ensures monitor.waiting <==> !found && SEARCH_INTERVAL * (old(monitor.ticks) + 1) < old(monitor.timeout)
      ensures monitor.waiting ==> monitor.observers == old(monitor.observers) && called == []
      ensures !monitor.waiting ==> monitor.observers == [] && called == Backwards(old(monitor.observers))
      ensures forall o | o in schedulers ::
                if !monitor.waiting && o in old(monitor.observers) then o.Called(old(o.Now()), answers(o))
                else unchanged(o)
    {
      hide AllOk, Apart, CallbacksOk, Awake, Scheduler.Ok, HasEntry, Cron.Valid;
      called := [];
      Count(found);
      if !monitor.waiting {
        called := Notify(answers);
      }
    }

    /** One tick uses up two seconds of the timeout. */
    method Count(found: bool)
      requires Valid() && monitor.present && monitor.waiting
      modifies monitor`waiting, monitor`remaining, monitor`ticks
      ensures Sound() && Onward()
      ensures monitor.waiting <==> !found && SEARCH_INTERVAL * (old(monitor.ticks) + 1) < old(monitor.timeout)
    {
      hide Apart, Awake, Scheduler.ProcessesOk, Scheduler.MessagesOk, CronLinked, Cron.Valid;
      monitor.Count(found);
      forall t | t in schedulers
        ensures Known(t) && t.Ok()
      {
        assert old(Known(t) && t.Ok());
      }
    }

    /** The last observer is called; it removes itself and starts. */
    method NotifyLast(a: Answers) returns (o: Scheduler)
      requires Sound() && monitor.observers != []
      modifies this`processes, schedulers, daemon, cron, monitor`observers
      ensures Sound() && daemon.connected == old(daemon.connected)
      ensures old(processes) <= processes && fresh(processes - old(processes))
      ensures o == old(monitor.observers)[|old(monitor.observers)| - 1] && o in schedulers
      ensures monitor.observers == old(monitor.observers)[..|old(monitor.observers)| - 1]
      ensures old(o.observerState.Waiting?)
      ensures o.observerState.Finished? && o.Called(old(o.Now()), a)
      ensures forall t | t in schedulers && t != o :: unchanged(t)
    {
      hide AllOk, Apart, Awake, Scheduler.Ok, Scheduler.ProcessesOk, Scheduler.Same, Scheduler.Starts, HasEntry,
           SameEntriesBut, SameBut, Cron.Valid;
      o := monitor.observers[|monitor.observers| - 1];
      assert o in monitor.observers;
      Member(o);
      Observing(o);
      RemovedAt(monitor.observers, |monitor.observers| - 1);
      o.HandleObserver(a);
      Adopt(o);
      StepKeeps(o);
    }

    lemma Observing(o: Scheduler)
      requires Sound() && o in schedulers && o in monitor.observers
      ensures o.observerState.Waiting?
      ensures |monitor.observers| > 0 && NoDuplicates(monitor.observers)
    {
      hide CronLinked, Accounted, OnlyLastAlive, CallbacksOk, Apart, Cron.Valid;
    }

    lemma Distinct()
      requires Sound()
      ensures NoDuplicates(monitor.observers)
    {
      hide AllOk, Apart, Awake;
    }

    lemma CalledGoesOn(s: Scheduler, was: Snapshot, a: Answers)
      requires s.Called(was, a)
      ensures s.GoesOn(was)
    {
    }

    lemma StillThere(s: Scheduler)
      ensures s.GoesOn(s.Now())
    {
    }

    /** The backward loop of process_monitor_update_observation: each observer starts. */
    method Notify(answers: Scheduler -> Answers) returns (ghost called: seq<Scheduler>)
      requires Sound()
      modifies this`processes, schedulers, daemon, cron, monitor`observers
      ensures Sound() && Onward() && daemon.connected == old(daemon.connected)
      ensures monitor.observers == [] && called == Backwards(old(monitor.observers))
      ensures forall o | o in schedulers ::
                if o in old(monitor.observers) then o.Called(old(o.Now()), answers(o)) else unchanged(o)
    {
      hide Sound, Onward, Scheduler.Ok, Scheduler.GoesOn, Scheduler.Called, Scheduler.Now, NoDuplicates, From,
           Backwards;
      Distinct();
      FromEnds(monitor.observers);
      called := [];
      var i := |monitor.observers|;
      ghost var was, done := monitor.observers, {};
      while i > 0
        invariant 0 <= i <= |was| && monitor.observers == was[..i] && called == Backwards(was)[..|was| - i]
        invariant Sound() && daemon.connected == old(daemon.connected)
        invariant old(processes) <= processes && fresh(processes - old(processes))
        invariant done == From(was, i)
        invariant forall o | o in schedulers && o !in done :: unchanged(o) && o.Now() == old(o.Now())
        invariant forall o | o in done && o in schedulers :: o.Called(old(o.Now()), answers(o))
      {
        label Before:
        i := i - 1;
        FromOneMore(was, i);
        var o := NotifyLast(answers(monitor.observers[i]));
        called := called + [o];
        forall x | x in done && x in schedulers
          ensures x.Called(old(x.Now()), answers(x))
        {
          assert unchanged@Before(x);
        }
        done := done + {o};
      }
      forall o | o in schedulers
        ensures o.GoesOn(old(o.Now()))
      {
        if o in done {
          CalledGoesOn(o, old(o.Now()), answers(o));
        } else {
          StillThere(o);
        }
      }
      AllGoOn();
    }

    // ----- Brick Daemon -----

    /** program_handle_brickd_connection. */
    method Wake(s: Scheduler, t: Turn)
      requires Sound() && s in unwoken && s in schedulers && (monitor.observers != [] ==> monitor.waiting)
      requires daemon.connected
      modifies this`processes, this`unwoken, schedulers, daemon, cron, monitor
      ensures Sound() && (monitor.observers != [] ==> monitor.waiting)
      ensures daemon.connected && unwoken == old(unwoken) - {s} && s.GoesOn(old(s.Now()))
      ensures old(processes) <= processes && fresh(processes - old(processes))
      ensures if old(s.waitingForBrickd) then s.Updated(old(s.Now()), true, t) else unchanged(s)
      ensures forall x | x in schedulers && x != s :: unchanged(x)
    {
      hide AllOk, Apart, CallbacksOk, Scheduler.Ok, Scheduler.Updated, Cron.Valid, Monitor.Valid;
      if s.waitingForBrickd {
        Update(s, true, t);
      }
      unwoken := unwoken - {s};
    }

    method WakeAll(turns: Scheduler -> Turn)
      requires Sound() && unwoken == schedulers && (monitor.observers != [] ==> monitor.waiting) && daemon.connected
      modifies this`processes, this`unwoken, schedulers, daemon, cron, monitor
      ensures Valid() && Onward() && daemon.connected
      ensures forall s | s in schedulers ::
                if old(s.waitingForBrickd) then s.Updated(old(s.Now()), true, turns(s)) else unchanged(s)
    {
      hide Sound, Onward, Scheduler.Ok, Scheduler.GoesOn, Scheduler.Updated, Scheduler.Now, Cron.Valid,
           Monitor.Valid, Process.Silent;
      var todo := schedulers;
      while todo != {}
        invariant todo == unwoken && todo <= schedulers == old(schedulers)
        invariant Sound() && daemon.connected && (monitor.observers != [] ==> monitor.waiting)
        invariant old(processes) <= processes && fresh(processes - old(processes))
        invariant forall s | s in todo :: unchanged(s) && s.Now() == old(s.Now())
        invariant forall s | s in schedulers && s !in todo ::
                    && s.GoesOn(old(s.Now()))
                    && if old(s.waitingForBrickd) then s.Updated(old(s.Now()), true, turns(s)) else unchanged(s)
        decreases todo
      {
        var s :| s in todo;
        label Before:
        Wake(s, turns(s));
        todo := todo - {s};
        forall x | x in schedulers && x !in todo
          ensures x.GoesOn(old(x.Now()))
          ensures if old(x.waitingForBrickd) then x.Updated(old(x.Now()), true, turns(x)) else unchanged(x)
        {
          assert x == s || unchanged@Before(x);
        }
      }
      AllGoOn();
    }

    /** network_handle_brickd_accept: every scheduler that waits for Brick Daemon is updated, and
        the others are left alone. */
    method Connect(turns: Scheduler -> Turn)
      requires Valid() && !daemon.connected
      modifies this`processes, this`unwoken, schedulers, daemon, cron, monitor
      ensures Valid() && Onward() && daemon.connected
      ensures forall s | s in schedulers ::
                && (s.waitingForBrickd ==> s.shutdown)
                && if old(s.waitingForBrickd) then s.Updated(old(s.Now()), true, turns(s)) else unchanged(s)
    {
      hide AllOk, Apart, CallbacksOk, Scheduler.Ok, Cron.Valid, Monitor.Valid, Scheduler.NoneSpawned, Scheduler.Busy,
           Scheduler.Updated;
      daemon.connected := true;
      unwoken := schedulers;
      WakeAll(turns);
    }

    /** network_cleanup_brickd_and_socats. */
    method Disconnect()
      requires Valid()
      modifies daemon`connected
      ensures Valid() && Onward() && !daemon.connected
    {
      hide AllOk, Apart, CallbacksOk;
      daemon.connected := false;
    }
  }
}
