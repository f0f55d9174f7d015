/** Reachable states in which the code does not do what it means to do: each method gets there
    from the beginning. When this happens in general is stated beside the operations. */
module Departures {
  import opened Wrappers
  import opened ObjectGraph
  import opened GraphSteps
  import opened GraphTheorems
  import opened RequestEffects
  import opened Inventory
  import opened ProgramTypes
  import opened ProgramPins
  import opened ProgramOptions
  import opened ProgramUpdates
  import FilesystemNames
  import opened AcceptedConfigs
  import ProcessSpawn
  import Processes
  import Scheduling
  import SchedulerWorld
  import AsyncRead
  import IntegerText
  import ConfigNames
  import ConfigFile
  import ConfigLoading

  // ----- objects -----

  /** object.c:121-133: the only session is left with a record of an object that was never added. */
  method DanglingRecord() returns (inventory: Inventory)
    ensures !inventory.Valid()
    ensures inventory.objects == map[] && inventory.references == map[3 := Reference(2, 1, 1)]
  {
    hide InvBut;
    inventory := new Inventory();
    assert !IdUsed(inventory.objects, 1) && !SessionIdUsed(inventory.sessions, 1);
    var e := inventory.CreateSession(60, 1, true, None, true);
    e := inventory.CreateObject(StringKind, "", CreateFlags(false, true, false), Some(1), 2, 3, true, false);
  }

  /** An object of some kind, with one locked reference from outside of the graph. */
  method Make(inventory: Inventory, kind: Kind, text: string, address: Pointer)
    requires inventory.Valid() && address !in inventory.objects && |inventory.objects| < 100
    requires inventory.references == map[]
    modifies inventory
    ensures inventory.Valid() && inventory.references == map[]
    ensures address in inventory.objects
            && inventory.objects == old(inventory.objects)[address := inventory.objects[address]]
    ensures inventory.objects[address].kind == kind && inventory.objects[address].text == text
    ensures inventory.objects[address].holds == [] && |inventory.objects| == |old(inventory.objects)| + 1
    ensures inventory.pins == old(inventory.pins) + multiset{Hold(address, true)}
    ensures inventory.destroyed == old(inventory.destroyed)
  {
    hide InvBut, FreshId;
    if AllIdsUsed(inventory.objects) {
      IdsNeedObjects(inventory.objects, OBJECT_ID_MAX);
    }
    var e := inventory.CreateObject(kind, text, CreateFlags(true, false, true), None, address, 0, true, true);
  }

  /** What the requests make of a parameter that names this object. */
  lemma Parameters(s: State, p: Pointer)
    requires Inv(s) && p in s.objects && s.objects[p].holds == []
    ensures forall kind, x :: IsTyped(s.objects, kind, s.objects[p].id, x) <==> kind == s.objects[p].kind && x == p
    ensures Named(s.objects, s.objects[p].kind, s.objects[p].id)
    ensures s.objects[p].kind.StringKind? ==> (Blank(s.objects, s.objects[p].id) <==> s.objects[p].text == "")
    ensures !Mixed(s.objects, s.objects[p].id)
  {
    hide Counted, RingsOk, Acyclic, InUse;
    var o := s.objects[p];
    assert IsTyped(s.objects, o.kind, o.id, p);
    assert forall kind, x | IsTyped(s.objects, kind, o.id, x) :: x == p;
  }

  datatype Item = Item(kind: Kind, text: string)

  ghost predicate IsItem(objects: Objects, p: Pointer, item: Item) {
    p in objects && objects[p].kind == item.kind && objects[p].text == item.text && objects[p].holds == []
  }

  ghost function PinsTo(n: nat): multiset<Hold> {
    if n == 0 then multiset{} else PinsTo(n - 1) + multiset{Hold(n, true)}
  }

  /** An inventory of some objects, at addresses from 1 on, each with one locked reference. */
  method Stock(items: seq<Item>) returns (inventory: Inventory)
    requires |items| < 100
    ensures inventory.Valid() && inventory.references == map[] && inventory.pins == PinsTo(|items|)
    ensures forall i | 0 <= i < |items| :: IsItem(inventory.objects, i + 1, items[i])
    ensures fresh(inventory) && forall p | p in inventory.objects :: 1 <= p <= |items|
  {
    hide InvBut;
    inventory := new Inventory();
    for i := 0 to |items|
      invariant inventory.Valid() && inventory.references == map[] && inventory.pins == PinsTo(i)
      invariant |inventory.objects| == i && forall p | p in inventory.objects :: 1 <= p <= i
      invariant forall k | 0 <= k < i :: IsItem(inventory.objects, k + 1, items[k])
      invariant fresh(inventory)
    {
      Make(inventory, items[i].kind, items[i].text, i + 1);
    }
  }

  // ----- programs -----

  const PROGRAM := [Item(StringKind, "/bin/true"), Item(ListKind, ""), Item(ListKind, ""), Item(StringKind, "."),
                    Item(StringKind, "first"), Item(StringKind, ""), Item(StringKind, "second"), Item(StringKind, "")]

  const FIRST := CustomOption(5, 6)
  const SECOND := CustomOption(7, 8)

  const CONFIG := Config(1, 2, 3, 4, DevNull, 0, DevNull, 0, DevNull, 0, Never, false, 0, 0, [FIRST, SECOND])

  lemma AllPinsAreConfig()
    ensures ConfigPins(CONFIG) == PinsTo(8)
  {
    assert OptionPins([SECOND]) == Locked(7) + Locked(8) by { OptionPinsOf(SECOND); }
    assert [FIRST, SECOND][1..] == [SECOND];
    assert OptionPins([FIRST, SECOND]) == Locked(5) + Locked(6) + OptionPins([SECOND]);
  }

  /** A program with a command and two custom options, whose configuration has all references. */
  method NewProgram() returns (program: Program)
    ensures InOrder(program) && program.config == CONFIG && program.others == multiset{} && !program.purged
    ensures forall i | 0 <= i < |PROGRAM| :: IsItem(program.inventory.objects, i + 1, PROGRAM[i])
    ensures fresh(program) && fresh(program.inventory)
  {
    hide InvBut, PinsTo, IsItem, ConfigPins, Accepted, ShortLists;
    var inventory := Stock(PROGRAM);
    AllPinsAreConfig();
    program := new Program(inventory, CONFIG);
    ItemsAreInOrder(inventory.objects);
  }

  lemma ItemsAreInOrder(objects: Objects)
    requires forall i | 0 <= i < |PROGRAM| :: IsItem(objects, i + 1, PROGRAM[i])
    requires forall p | p in objects :: 1 <= p <= |PROGRAM|
    ensures Accepted(objects, CONFIG) && ShortLists(objects)
  {
    assert IsItem(objects, 2, PROGRAM[1]) && IsItem(objects, 3, PROGRAM[2]);
    assert forall p | p in objects :: IsItem(objects, p, PROGRAM[p - 1]);
  }

  /** program.c:709-715: an empty working directory is refused, and a reference to it remains that
      nobody will ever give back. */
  method ForgottenDirectory() returns (program: Program, e: UpdateError)
    ensures program.Valid() && e.InvalidParameter? && program.config == CONFIG
    ensures program.others == multiset{Hold(6, true)}
  {
    hide InvBut, ConfigPins, Touched, Named, Blank, Mixed, IsTyped;
    program := NewProgram();
    var objects := program.inventory.objects;
    ghost var s := program.inventory.View();
    assert IsItem(objects, 1, PROGRAM[0]) && IsItem(objects, 2, PROGRAM[1]) && IsItem(objects, 3, PROGRAM[2]);
    assert IsItem(objects, 6, PROGRAM[5]);
    Parameters(s, 1);
    Parameters(s, 2);
    Parameters(s, 3);
    Parameters(s, 6);
    assert IsTyped(objects, StringKind, objects[6].id, 6);
    assert multiset{} + Locked(6) == Locked(6);
    e := program.SetCommand(objects[1].id, objects[2].id, objects[3].id, objects[6].id, true);
  }

  /** program.c:1570-1585: the first of two options could not be removed, and comes back as the
      last one, ... */
  method OptionMoved() returns (program: Program, e: UpdateError)
    ensures program.Valid() && e.NotSaved? && program.config == CONFIG.(customOptions := [SECOND, FIRST])
  {
    program, e := RemoveFirst(true);
  }

  /** ... or not at all, and what it referred to is lost, too. */
  method OptionLost() returns (program: Program, e: UpdateError)
    ensures program.Valid() && e.NotSaved? && program.config == CONFIG.(customOptions := [SECOND])
    ensures program.others == multiset{Hold(5, true), Hold(6, true)}
  {
    program, e := RemoveFirst(false);
  }

  method RemoveFirst(appended: bool) returns (program: Program, e: UpdateError)
    ensures program.Valid() && e.NotSaved?
    ensures program.config == CONFIG.(customOptions := if appended then [SECOND, FIRST] else [SECOND])
    ensures program.others == if appended then multiset{} else multiset{Hold(5, true), Hold(6, true)}
  {
    hide InvBut, ConfigPins, Touched, IsTyped, Accepted, ShortLists, ValueFor, Dropped, IsFirst, WithoutOption,
         LostPins;
    program := NewProgram();
    var objects := program.inventory.objects;
    ghost var s := program.inventory.View();
    assert IsItem(objects, 5, PROGRAM[4]) && IsItem(objects, 7, PROGRAM[6]);
    Parameters(s, 5);
    FirstIsFound(objects);
    e := program.RemoveCustomOption(objects[5].id, appended, false);
    assert IsTyped(s.objects, StringKind, s.objects[5].id, 5);
    FirstIsDropped(objects, program.inventory.objects, program.config.customOptions, e, appended);
  }

  lemma FirstIsFound(objects: Objects)
    requires IsItem(objects, 5, PROGRAM[4])
    ensures IsFirst(objects, [FIRST, SECOND], 0, Folded(objects[5].text))
    ensures ValueFor(objects, [FIRST, SECOND], Folded(objects[5].text)).Some?
  {
    assert [FIRST, SECOND][..0] == [];
  }

  lemma FirstIsDropped(objects: Objects, objects': Objects, after: seq<CustomOption>, e: UpdateError, appended: bool)
    requires e.NotSaved? && Dropped(objects, [FIRST, SECOND], objects', after, 0, e, appended)
    ensures after == if appended then [SECOND, FIRST] else [SECOND]
    ensures multiset{} + LostPins(FIRST, e, appended) ==
            if appended then multiset{} else multiset{Hold(5, true), Hold(6, true)}
  {
    hide OnlyOption, SameOptions, Next;
    assert WithoutOption([FIRST, SECOND], 0) == [SECOND];
  }

  const MADE := FilesystemNames.Answers(FilesystemNames.StringAnswer(1, true, true), true,
                                        FilesystemNames.StringAnswer(2, true, true),
                                        FilesystemNames.StringAnswer(3, true, true), true,
                                        FilesystemNames.StringAnswer(4, true, true), true)

  const ALL_FILES := FilesystemNames.Plan("/bin", Some("/bin/in"), Some("/bin/out"), Some("/bin/err"))

  method NewNames() returns (names: FilesystemNames.StoredNames)
    ensures names.Valid() && names.stored == FilesystemNames.NO_NAMES && names.others == multiset{}
    ensures names.inventory.View() == State(map[], map[], map[], multiset{})
    ensures fresh(names) && fresh(names.inventory)
  {
    hide InvBut;
    var inventory := new Inventory();
    names := new FilesystemNames.StoredNames(inventory);
  }

  /** program_scheduler.c:356, then 520: the working directory cannot be made, and the string with its
      name, which is gone by then, is released again. */
  method DoubleRelease() returns (names: FilesystemNames.StoredNames, fault: bool)
    ensures names.Valid() && fault && names.inventory.objects == map[]
  {
    hide InvBut, FilesystemNames.Extended, FilesystemNames.AllSay, FilesystemNames.PinsOf;
    names := NewNames();
    var stage;
    stage, fault := names.Prepare(ALL_FILES, MADE.(workingDirectory := false));
  }

  /** program_scheduler.c:452-475: the directory for stderr cannot be made; the scheduler has no names,
      and four strings remain that nobody will ever give back. */
  method LostNames() returns (names: FilesystemNames.StoredNames)
    ensures names.Valid() && names.stored == FilesystemNames.NO_NAMES
    ensures names.others == multiset{Hold(1, true), Hold(2, true), Hold(3, true), Hold(4, true)}
  {
    hide InvBut, FilesystemNames.Extended, FilesystemNames.AllSay, FilesystemNames.PinsOf;
    FourPins();
    names := NewNames();
    var stage, fault := names.Prepare(ALL_FILES, MADE.(stderrDirectory := false));
  }

  lemma FourPins()
    ensures multiset{} + FilesystemNames.PinsOf(FilesystemNames.NamesOf(ALL_FILES, MADE.(stderrDirectory := false)))
            == multiset{Hold(1, true), Hold(2, true), Hold(3, true), Hold(4, true)}
  {
  }

  // ----- processes -----

  const PARAMETERS := [Item(StringKind, "true"), Item(ListKind, ""), Item(ListKind, ""), Item(StringKind, "/"),
                       Item(FileKind, ""), Item(FileKind, ""), Item(FileKind, "")]

  lemma {:induction false} NoRefusal(objects: Objects, ids: seq<nat>, n: nat)
    requires n <= |ids| == |ProcessSpawn.RULES|
    requires forall i | 0 <= i < n :: ProcessSpawn.Refusal(objects, ProcessSpawn.RULES[i], ids[i]).Spawned?
    ensures ProcessSpawn.FirstRefusal(objects, ids, n).Spawned?
  {
    if n > 0 {
      NoRefusal(objects, ids, n - 1);
    }
  }

  /** process.c:793-795: a success, but no process object. */
  method SuccessWithoutProcess() returns (e: ProcessSpawn.SpawnError, created: bool)
    ensures e.Spawned? && !created
  {
    hide InvBut, PinsTo, IsItem, ProcessSpawn.Refusal, ProcessSpawn.FirstRefusal, ProcessSpawn.Added, AllIdsUsed,
         ProcessSpawn.Acceptable, Named, Blank, Mixed, ProcessSpawn.Relative;
    var inventory := Stock(PARAMETERS);
    var objects := inventory.objects;
    var ids: seq<nat> := [];
    for i := 0 to 7
      invariant |ids| == i && inventory.Valid() && inventory.objects == objects && inventory.references == map[]
      invariant forall k | 0 <= k < i :: ProcessSpawn.Refusal(objects, ProcessSpawn.RULES[k], ids[k]).Spawned?
    {
      assert IsItem(objects, i + 1, PARAMETERS[i]);
      NotRefused(inventory.View(), i);
      ids := ids + [objects[i + 1].id];
    }
    NoRefusal(objects, ids, 7);
    ProcessSpawn.InOrder(objects, ids);
    e, created := ProcessSpawn.Spawn(inventory, ids, None, 8, 0, ProcessSpawn.EventRefused, true, true);
  }

  lemma NotRefused(s: State, i: nat)
    requires Inv(s) && i < 7 && IsItem(s.objects, i + 1, PARAMETERS[i])
    ensures i + 1 in s.objects
    ensures ProcessSpawn.Refusal(s.objects, ProcessSpawn.RULES[i], s.objects[i + 1].id).Spawned?
  {
    hide InvBut, IsTyped;
    var rule, o := ProcessSpawn.RULES[i], s.objects[i + 1];
    Parameters(s, i + 1);
    assert rule.kind == o.kind && rule.Accepts(o.text);
    assert IsTyped(s.objects, o.kind, o.id, i + 1);
  }

  // ----- reading -----

  /** file.c:1194-1201: the event loop does not take the event source; the client is told so, but
      from then on the file cannot be read, written or moved until the read is aborted. */
  method StuckRead(data: seq<Byte>) returns (file: AsyncRead.File, e: AsyncRead.Result)
    requires |data| <= AsyncRead.WRITE_LENGTH
    ensures file.Valid() && file.inProgress && !file.registered
    ensures file.sent == [AsyncRead.Callback(AsyncRead.InternalError, [])] && e.InvalidOperation?
  {
    file := new AsyncRead.File([]);
    file.ReadAsync(100, false);
    e := file.Write(data, true, |data|);
  }

  // ----- configurations -----

  /** program.c:901-902: a pipe for stderr is accepted and saved, but it is not loaded. */
  method PipeForStderr() returns (program: Program, e: UpdateError, saved: bool, loaded: ConfigFile.Settings)
    ensures InOrder(program) && program.config.stderr.Pipe? && e.Updated? && saved
    ensures loaded != SettingsOf(program.inventory.objects, program.config)
  {
    hide InvBut, ConfigPins, ShortLists, Accepted, NamesDiffer;
    program := NewProgram();
    var objects := program.inventory.objects;
    e := PerformStdio(program, Some(DevNull), 0, Some(DevNull), 0, Some(Pipe), 0, true);
    var file := new ConfigFile.ConfFile([], 0);
    var c := SettingsOf(program.inventory.objects, program.config);
    assert IsItem(objects, 5, PROGRAM[4]) && IsItem(objects, 7, PROGRAM[6]);
    saved, loaded := Reload(program, file, ConfigFile.OptionCount(c));
  }

  const DOUBLED := [ConfigFile.Line("custom.a", "old"), ConfigFile.Line("custom.A", "new")]

  const OLD := ConfigFile.Custom("a", "old")
  const NEW := ConfigFile.Custom("A", "new")

  lemma Doubled()
    ensures ConfigFile.Customs(DOUBLED) == [OLD, NEW]
    ensures ConfigFile.Settled([OLD, NEW]) == [ConfigFile.Custom("a", "new")]
  {
    ConfigNames.OwnPrefix(ConfigNames.CUSTOM, "a");
    ConfigNames.OwnPrefix(ConfigNames.CUSTOM, "A");
    assert ConfigNames.CUSTOM + "a" == "custom.a" && ConfigNames.CUSTOM + "A" == "custom.A";
    assert Folded("a") == Folded("A") == "a";
    hide ConfigNames.HasPrefix, Folded;
    assert DOUBLED[1..] == [ConfigFile.Line("custom.A", "new")] && DOUBLED[1..][1..] == [];
    assert "custom.a"[7..] == "a" && "custom.A"[7..] == "A";
    assert ConfigFile.Customs(DOUBLED[1..]) == [NEW];
    assert [OLD, NEW][..1] == [OLD] && [OLD][..0] == [];
    assert ConfigFile.Settled([OLD]) == [OLD];
    assert [OLD][1..] == [];
  }

  /** program_config.c:1228-1250: two options whose names differ in case alone can be loaded, but
      are saved as one. */
  method OptionDoubled() returns (before: ConfigFile.Settings, after: ConfigFile.Settings)
    ensures before.customOptions == [OLD, NEW] && after == before.(customOptions := [ConfigFile.Custom("a", "new")])
  {
    hide ConfigFile.Customs, ConfigFile.Settled, ConfigFile.DistinctNames, ConfigFile.WellFormed,
         ConfigLoading.Loadable;
    Doubled();
    ConfigLoading.LoadedIsLoadable(DOUBLED);
    var file := new ConfigFile.ConfFile(DOUBLED, 0);
    before := ConfigLoading.Load(file);
    var ok;
    ok, after := ConfigLoading.SaveAndLoad(file, before, ConfigFile.OptionCount(before), true);
    ConfigLoading.LoadableStays(before);
  }

  /** program_config.c:145-266: one more than what is read back. */
  lemma NotReadBack()
    ensures IntegerText.IntegerOf(IntegerText.Digits(0x8000_0000_0000_0000, 10)).None?
    ensures IntegerText.IntegerOf(IntegerText.BinaryText(0, 65)).None?
  {
    IntegerText.DecimalRoundTrip(0x8000_0000_0000_0000);
    IntegerText.BinaryRoundTrip(0, 65);
  }

  // ----- schedulers -----

  const WORKS := Scheduling.Answers(true, true, true, true, 1, true, true, Scheduling.CronAnswers(true, true, true),
                                    true, true)
  const NO_OBSERVER := Scheduling.MonitorAnswers(false, false, false, false)

  method NewScheduler(mode: StartMode, interval: nat, connected: bool, display: bool) returns (s: Scheduling.Scheduler)
    ensures s.Ok() && s.state.Stopped? && (s.observerState.Finished? <==> !display) && !s.observerState.Waiting?
    ensures !s.shutdown && s.waitingForBrickd == !connected && !s.calledBack
    ensures s.startMode == mode && s.startInterval == interval && s.names.Missing? && s.lost == {} && !s.Busy()
    ensures s.daemon.connected == connected && !s.daemon.recursive && s.monitor.observers == [] && !s.monitor.present
    ensures fresh(s) && fresh(s.daemon) && fresh(s.cron) && fresh(s.monitor)
  {
    var daemon := new Scheduling.Daemon();
    var cron := new Scheduling.Cron();
    var monitor := new Scheduling.Monitor();
    daemon.connected := connected;
    s := new Scheduling.Scheduler(1, daemon, cron, monitor, display, mode, false, interval);
  }

  /** program_scheduler.c:277-303: the timer of a scheduler that is shut down cannot be stopped. It
      stays, and the message about that is never released. */
  method LostMessage() returns (s: Scheduling.Scheduler)
    ensures s.Ok() && s.shutdown && s.timer == Scheduling.Periodic(5000000) && s.lost != {} && s.message == None
  {
    hide Scheduling.OnlyLastAlive, Scheduling.Accounted, Scheduling.CronLinked, Scheduling.HasEntry,
         Scheduling.SameEntriesBut, Scheduling.SameBut, Scheduling.Cron.Valid, Scheduling.Monitor.Valid;
    s := NewScheduler(Interval, 5, true, false);
    s.Start(WORKS);
    var killed := s.Shutdown(WORKS.(stopTimer := false));
  }

  /** program_scheduler.c:452-475 and 527: the directory for stderr cannot be made, so nothing is
      stored; the scheduler is started all the same, and in the code follows a null pointer. */
  method StartsUnprepared() returns (s: Scheduling.Scheduler)
    ensures s.Ok() && s.state.Running? && s.names.Missing?
  {
    hide Scheduling.OnlyLastAlive, Scheduling.Accounted, Scheduling.CronLinked, Scheduling.HasEntry,
         Scheduling.SameEntriesBut, Scheduling.SameBut, Scheduling.Cron.Valid, Scheduling.Monitor.Valid;
    s := NewScheduler(Always, 0, true, false);
    s.Update(true, Scheduling.Turn(Scheduling.StderrFails(WORKS), NO_OBSERVER, WORKS, WORKS));
  }

  /** program.c:1328-1332: a process of a program that was purged. */
  method SpawnedAfterShutdown() returns (s: Scheduling.Scheduler)
    ensures s.Ok() && s.shutdown && s.state.Stopped? && s.Busy()
  {
    hide Scheduling.OnlyLastAlive, Scheduling.Accounted, Scheduling.CronLinked, Scheduling.HasEntry,
         Scheduling.SameEntriesBut, Scheduling.SameBut, Scheduling.Cron.Valid, Scheduling.Monitor.Valid;
    s := NewScheduler(Never, 0, true, false);
    var killed := s.Shutdown(WORKS);
    s.StartProcess(WORKS);
  }

  /** program_scheduler.c:172-182: a program with a display starts as soon as lxpanel is there, while
      Brick Daemon is not; when that connects, it will be started a second time. */
  method StartedEarly() returns (s: Scheduling.Scheduler)
    ensures s.Ok() && s.state.Running? && s.waitingForBrickd && !s.daemon.connected
  {
    hide Scheduling.OnlyLastAlive, Scheduling.Accounted, Scheduling.CronLinked, Scheduling.HasEntry,
         Scheduling.SameEntriesBut, Scheduling.SameBut, Scheduling.Cron.Valid, Scheduling.Monitor.Valid;
    s := NewScheduler(Always, 0, false, true);
    s.Update(true, Scheduling.Turn(Scheduling.Prepared, Scheduling.MonitorAnswers(true, true, true, true), WORKS,
                                   WORKS));
  }

  /** cron.c:220-232: the pointer for the first entry is not NULL by chance. There is a success, but
      no entry. */
  method EntryLost() returns (cron: Scheduling.Cron, ok: bool)
    ensures cron.Valid() && ok && cron.entries == []
  {
    cron := new Scheduling.Cron();
    var s := NewScheduler(Cron, 0, true, false);
    ok := cron.AddEntry(1, s, Scheduling.CronAnswers(true, true, true), true);
  }

  /** process.c:133-200: waitpid fails, so the death of the process is never noticed, and the
      scheduler that is to keep the program running never starts it again. */
  method Stalled() returns (world: SchedulerWorld.World, s: Scheduling.Scheduler)
    ensures world.Valid() && s in world.schedulers
    ensures s.state.Running? && s.startMode.Always? && s.Busy() && s.last.value.Silent()
  {
    hide SchedulerWorld.World.Sound, Scheduling.Scheduler.Consistent, Scheduling.Scheduler.Triggered,
         Scheduling.Scheduler.Ok, Scheduling.HasEntry;
    world, s := Connected();
    world.Continue(s, WORKS);
    world.Member(s);
    world.ChildWaited(s, s.last.value, Processes.Other, false, false);
  }

  method Connected() returns (world: SchedulerWorld.World, s: Scheduling.Scheduler)
    ensures world.Valid() && s in world.schedulers && fresh(world.processes) && world.daemon.connected
    ensures s.state.Stopped? && !s.shutdown && s.startMode.Always? && s.last == None && s.spawned == []
    ensures fresh(world) && fresh(s) && world.schedulers == {s}
    ensures fresh(world.daemon) && fresh(world.cron) && fresh(world.monitor)
  {
    hide SchedulerWorld.World.Sound, Scheduling.HasEntry;
    world := new SchedulerWorld.World();
    world.Connect(s => Scheduling.Turn(Scheduling.Prepared, NO_OBSERVER, WORKS, WORKS));
    s := world.Register(1, false, Always, false, 0);
  }
}
