# Verification of redapid

A Dafny model of the parts of redapid whose correctness is hard to see from one function at a time, with proofs. redapid is a single-threaded daemon: everything happens in handlers that an event loop calls one after the other. The model follows that structure. Objects that the C code updates in place are classes whose methods change fields, and what each method does to the state is stated against functions and predicates on values, about which the lemmas then speak.

`dafny verify dfyconfig.toml` checks everything.

**Object graph.** Reference-counted, lockable objects are owned by client sessions through external references and by each other through internal ones. `ObjectGraph` makes memory explicit: maps from addresses to records, so aliasing, dangling records and double frees can be expressed. An external reference is one record threaded through two rings (`ReferenceRings`). References that are kept in fields outside of the graph (program configurations, the scheduler, the call in progress) are *pins*. The invariant `Inv` ties every count to what it counts, and demands that containment has a rank. `Inventory.Inventory` is the mutable inventory with the requests of object.c, list.c, session.c and inventory.c; `GraphTheorems` draws the conclusions: live means reachable, containment is acyclic, locked values are frozen, states are determined by their roots. `ProcessSpawn`, `ProgramUpdates` (with `ProgramPins`, `ProgramOptions`) and `FilesystemNames` use them to show when multi-step acquisitions are transactions.

**Program scheduler.** `Scheduling` has the scheduler, the cron table and the process monitor as three classes that call back into each other as the C code does; `Processes` is the waiting thread with its pipe; `SchedulerWorld` puts all schedulers, processes and tables together; `EventLoop` runs any sequence of events and states what holds at every quiescent point. Answers of the operating system are parameters.

**Configuration files.** `IntegerText` prints and parses integers, `ConfigNames` tells option names apart, `ConfigFile` saves, `ConfigLoading` loads and proves the round trip. `AcceptedConfigs` reads the settings of a program off its objects and proves what of them survives a restart after any requests.

**Byte-level code.** `BrickDaemon` reassembles packets, `StringObject` edits texts in chunks, `AsyncRead` delivers long reads in pieces, `Sha1Spec` and `Sha1` relate the in-place SHA-1 of the C bindings to RFC 3174 and its keyed use to RFC 2104.

**Identifiers.** `IdAllocation` is the wrapping counter that skips identifiers in use.

**Departures.** `Departures` gets, from the beginning, to states in which the code departs from its intent.

## Where the code does not do what it means to do

The model keeps the code as it is and states exactly when it goes wrong, for all inputs. In addition, `Departures` gets to a state of each kind from the beginning; its method is named last.

- object.c:121-133: the external reference is taken before the object enters the inventory and is not given back when that fails (`Inventory.Inventory.CreateObject`: the state stays valid if and only if it is not so that an external reference could be taken, but there was no slot or no identifier for the object; `Departures.DanglingRecord`).
- program.c:709-715: an empty working directory is refused without giving back the reference just taken (`ProgramUpdates.Program.SetCommand`: an error leaves the state as it was if and only if it is not this one, and then exactly this reference is lost; `Departures.ForgottenDirectory`).
- program.c:901-902: the redirection of stdout is checked where stderr is meant, so a pipe is accepted for stderr, which does not survive a restart (`AcceptedConfigs.RestartKeeps`, `AcceptedConfigs.Restart`: after any requests a program is loaded as it was saved if and only if stderr is not a pipe and the names of its custom options are different; `Departures.PipeForStderr`).
- program.c:1570-1585: a custom option that could not be removed comes back as the last one, or not at all (`ProgramUpdates.Program.RemoveCustomOption`; `Departures.OptionMoved`, `Departures.OptionLost`).
- program.c:1328-1332: a client can start a process of a program that was purged (`EventLoop.Handle`: of the schedulers that were shut down exactly the one for which a client asks gets another process, if none is alive and the calls work; `EventLoop.Run`: so without such a request none ever does; `Departures.SpawnedAfterShutdown`).
- program_config.c:1228-1250: custom options of a file whose names differ in case alone are all loaded, but only the last value is saved (`ConfigLoading.LoadedRoundTrip`; `Departures.OptionDoubled`).
- program_config.c:145-191: numbers that were padded to more than 64 binary digits or that exceed a signed 64-bit integer are not read back (`IntegerText.BinaryRoundTrip`, `IntegerText.DecimalRoundTrip`; `Departures.NotReadBack`).
- program_scheduler.c:277-303: when the timer cannot be stopped, the message of the nested error is never released, and the timer stays (`Scheduling.Scheduler.Stop`; `Departures.LostMessage`).
- program_scheduler.c:172-182: the callback of the observer starts the scheduler without looking whether it still waits for Brick Daemon, as program_scheduler.c:1151-1153 does, and connecting starts it again (`EventLoop.OnlyObserversStartEarly`: a scheduler runs while it waits for Brick Daemon only after such a callback, so only with a display; `Scheduling.Scheduler.Begun` says what the callback comes to; `Departures.StartedEarly`).
- program_scheduler.c:452-475 and 527: when only the directory for stderr cannot be made, the scheduler is stopped with an error, but a success is returned; it is then started with the file names of an earlier update, or without any, where the code follows a null pointer (`Scheduling.Scheduler.Update`; `Departures.StartsUnprepared`). The new names are lost: up to four strings stay pinned and belong to nobody (`FilesystemNames.StoredNames.Prepare`: if and only if every call before this one works; `Departures.LostNames`).
- program_scheduler.c:356 and 520: the name of a working directory that cannot be made is released twice (`FilesystemNames.StoredNames.Prepare`: the second release finds nothing if and only if the string was made and the directory was not; `Departures.DoubleRelease`).
- process.c:133-200: when waitpid or the pipe fails, the waiting thread ends, and the death of the process is never noticed (`EventLoop.NeverStalls`, `SchedulerWorld.World.StuckForGood`: the scheduler never spawns another process; `Departures.Stalled`).
- process.c:793-795: a success is returned although no process object was created (`ProcessSpawn.Spawn`; `Departures.SuccessWithoutProcess`).
- string.c:339: space for the terminator is only made when the chunk itself does not fit (`StringObject.String.SetChunk`, `StringObject.Upload`: an uploaded text is terminated if and only if it does not fill its buffer exactly; `StringObject.Unterminated`: a text of 64 bytes, if allocations are rounded up to 16). Exactly when setting a chunk leaves a string without the terminator it had before (`old(Valid()) && !Valid()` in the first contract), string.c:355 writes the terminator one byte behind the buffer, out of bounds; the model drops this write.
- file.c:1194-1201: a read whose event source is not accepted stays in progress until it is aborted (`AsyncRead.File.ReadAsync`, `AsyncRead.Handle`; `Departures.StuckRead`).
- cron.c:220-232: the entry that is looked for is not initialised, so with an empty table a pointer that is not NULL by chance is taken for an entry (`Scheduling.Cron.AddEntry`: a success leaves an entry if and only if it is not so that the table is empty, the pointer is stale and the other calls work; `Departures.EntryLost`).

## Model

| member | source | states |
|---|---|---|
| IdAllocation.NextId | src/redapid/inventory.c:117-158 | the identifier is the first free one in the cyclic order of the counter, never zero, never in use, and the counter is behind it afterwards, across wrap-around; exhaustion is reported if and only if all 65535 are in use, and leaves the counter where it was |
| IdAllocation.EveryIdIsTried | src/redapid/inventory.c:126-157 | one turn of the counter, from any value, tries every non-zero identifier |
| IdAllocation.Collides | src/redapid/inventory.c:134-148 | the nested search finds a collision exactly when some table has the identifier |
| IdAllocation.InARow | src/redapid/inventory.c:117-158 | two in a row: the second identifier is the first free one behind the first, and the same one only if no other is free |
| IdAllocation.GoesRound | src/redapid/inventory.c:117-158 | over any run of a counter, between giving out an identifier and giving it out again every other one was in use or given out |
| Inventory.IdsNeedObjects | src/redapid/inventory.c:117-158 | running out of identifiers takes at least as many objects as there are identifiers |
| Inventory.OutOfIds | src/redapid/inventory.c:117-158 | in a valid inventory all identifiers are in use if and only if it has 65535 objects |
| Inventory.ObjectIdsGoRound | src/redapid/inventory.c:117-158 | over any run of requests: the identifier of an object does not come back before every other one was in use or given out |
| Inventory.SessionIdsGoRound | src/redapid/inventory.c:81-115 | the same for sessions |
| ObjectGraph.AcquireKeeps | src/redapid/object.c:199-205 | taking an internal reference keeps the whole invariant, and saves an object that had none |
| ObjectGraph.ReleaseKeeps | src/redapid/object.c:207-225 | giving one up leaves at most its own target without a reference |
| ObjectGraph.VanishKeeps | src/redapid/object.c:136-167 | an object without references has an empty ring and no holder; what it held is accounted for when it leaves |
| ReferenceRings.LinkKeepsRings | src/redapid/object.c:255-285 | a new record keeps both rings consistent, their sums right and the pair unique |
| ReferenceRings.AdjustKeepsRings | src/redapid/object.c:236-250 | changing the count of a record keeps the sums of both rings |
| ReferenceRings.UnlinkKeepsRings | src/redapid/object.c:309-318 | removing a record takes its whole count out of both owners and leaves every other record linked |
| GraphSteps.UnlockedIsUnheld | src/redapid/list.c:170-176 | an unlocked list is nobody's item |
| GraphSteps.AppendKeepsAcyclic | src/redapid/list.c:160-210 | appending anything but the list itself to a list that nothing holds cannot close a cycle of any length |
| GraphSteps.AdoptKeeps | src/redapid/list.c:192-204 | turning a pin into an item or into a reference of an object keeps the invariant |
| GraphSteps.DisownKeeps | src/redapid/list.c:213-231 | the opposite step keeps it, too |
| GraphTheorems.LiveIffReachable | src/redapid/object.c:207-333 | an object is in the inventory if and only if a chain of containment leads to it from a pin or from a session's reference: no leak, no early free |
| GraphTheorems.NothingWithoutRoots | src/redapid/object.c:207-333 | when the last session reference and the last pin are gone, the inventory is empty |
| GraphTheorems.ContainmentIsAcyclic | src/redapid/list.c:160-210 | no chain of containers leads from an object back to itself |
| GraphTheorems.SurvivorsAreReachable | src/redapid/session.c:34-68 | when references only went away, what is left is exactly what the remaining roots reach in the graph as it was before |
| GraphTheorems.StateIsDetermined | src/redapid/object.c:207-333 | with the same pins, records and rings, a valid state cannot have lost any object or differ in any count |
| GraphTheorems.ObjectConservation | src/redapid/object.c:80-354 | the external count is the sum over the ring, which has exactly the object's records; internal and lock counts are numbers of slots, the lock count at most the internal one |
| GraphTheorems.SessionConservation | src/redapid/session.c:34-55 | the same for a session; at most one record per object |
| GraphTheorems.FrozenStep | src/redapid/list.c:160-279 | a step that leaves locked strings and lists alone leaves the expanded value of every locked object unchanged, down to any depth |
| GraphTheorems.FrozenRun | src/redapid/list.c:252-279 | over any run, an object that stays locked has the same expanded value at the end as at the beginning |
| GraphTheorems.FrozenPath | src/redapid/list.c:252-279 | whoever follows the same indices from a list that stays locked comes to the same objects at the end of a run as at its beginning, and finds the same text there |
| GraphTheorems.OnlyStringsFrozen | src/redapid/list.c:252-269 | a list that was acquired as all strings stays all strings |
| RequestEffects.GivenBack | src/redapid/object.c:199-225 | once all pins taken are given back, the state is the one before, in every count |
| RequestEffects.UnlockedStays | src/redapid/list.c:213-231 | a list from which an item is removed cannot go away with it |
| Inventory.Inventory.ReleaseHold | src/redapid/object.c:207-225 | a cascade keeps the invariant, destroys each object exactly once, and leaves survivors' contents, records and sessions alone |
| Inventory.Inventory.RemoveObject | src/redapid/object.c:136-167 | the same for the destruction of one object with all that depended on it; the recursion ends |
| Inventory.Inventory.AddExternalReference | src/redapid/object.c:227-286 | one more reference from this session to this object and nothing else; it fails only when a new record is needed and there is no memory, and then changes nothing |
| Inventory.Inventory.RemoveExternalReference | src/redapid/object.c:288-333 | one reference less; nothing at all when the session has none |
| Inventory.Inventory.Release | src/redapid/object.c:181-192 | the API call: an error only when no session has a reference; success without effect when another one has |
| Inventory.Inventory.ExpireSession | src/redapid/session.c:34-68 | the session and its records go; exactly the objects that no other session and no pin reaches are destroyed, each once; everything else is unchanged |
| Inventory.Inventory.CreateObject | src/redapid/object.c:80-134 | each error in its order; the new object has exactly the references asked for, and the first free identifier behind the counter, which moves on also when there is then no slot in the table; the state stays valid if and only if no external reference was taken for an object that then could not be added, and that one record is then all that is left; any other failure changes nothing |
| Inventory.Inventory.CreateSession | src/redapid/session.c:80-161 | each error in its order, that of the timer included, running out of identifiers exactly when all 65535 are in use; on success an empty session with the first free identifier behind the counter, otherwise an unchanged state |
| Inventory.Inventory.GetObject | src/redapid/inventory.c:544-578 | lookup by identifier is unambiguous in every state |
| Inventory.Inventory.ListAppend | src/redapid/list.c:160-210 | each error in its order; on success exactly one item more, the last one, acquired and locked; the others keep their places |
| Inventory.Inventory.ListRemove | src/redapid/list.c:213-231 | each error in its order; on success the list lives on with one item less: those before the index keep their places, those behind it move up by one |
| Inventory.AppendAndRemove | src/redapid/list.c:160-231 | appending any object to a list and removing the last item restores the whole inventory; exactly when it succeeds |
| Inventory.Inventory.ListGetItem | src/redapid/list.c:133-157 | which error; on success the item's identifier and type, and one external reference more to it, otherwise nothing |
| Inventory.Inventory.ListEnsureItemType | src/redapid/list.c:233-250 | success if and only if every item has the type |
| Inventory.Inventory.GetListLocked | src/redapid/list.c:252-269 | which error, decided by the objects alone; on success one locked reference, otherwise nothing |
| Inventory.Inventory.GetStringLocked | src/redapid/string.c:409-419 | the same for strings |
| Inventory.Inventory.Execute | src/redapid/object.c:80-354 | any request in any valid state respects locked values and keeps the invariant if and only if it does not leave a dangling record, which can be told beforehand |
| Inventory.Inventory.Run | src/redapid/object.c:80-354 | any sequence of requests gives a run of valid states to which the freezing theorem and the laws of identifiers apply; it ends early exactly at the first request that leaves a dangling record |
| ProcessSpawn.Spawn | src/redapid/process.c:379-898 | for a session or without one: the error as a function of the seven objects named, in the order in which they are looked at; the process object holds exactly these seven, the strings and lists locked, or the state is unchanged, unless creating the object leaves a dangling record; exactly when it is created, and exactly when a record dangles |
| ProcessSpawn.TakeAll | src/redapid/process.c:405-594 | the references taken up to the first refusal are exactly those to be given back |
| ProcessSpawn.SpawnAndDestroy | src/redapid/process.c:80-123 | spawning a process and dropping the only reference to it restores every count |
| ProgramUpdates.Program.SetCommand | src/redapid/program.c:639-773 | which error, as a function of the objects named, the first parameter at fault deciding; success replaces exactly the command, keeping one pin per object named; an error changes nothing, except the one that forgets the directory, which loses exactly one reference to it |
| ProgramUpdates.Program.SetStdioRedirection | src/redapid/program.c:854-1063 | the same for the redirections, with no exception |
| ProgramUpdates.Program.SetSchedule | src/redapid/program.c:1169-1249 | the same for the schedule |
| ProgramUpdates.Program.SetCustomOptionValue | src/redapid/program.c:1405-1493 | as lookups see it, without regard to case, exactly this name gets the value, even if several options have one name; the first option with the name keeps its place, and a new one is the last; an error changes nothing; names that were different stay so |
| ProgramUpdates.Program.RemoveCustomOption | src/redapid/program.c:1536-1591 | exactly the option that a lookup finds goes, and the next one with its name comes to light, if there is one; when saving fails, exactly when the order and the meaning are kept, and which references are lost |
| ProgramUpdates.Program.FindOption | src/redapid/program.c:90-111 | the first option of this name, or no option has it, without regard to case |
| ProgramTypes.SameUpToCase | src/redapid/program.c:90-111 | two names are the same for a lookup if and only if they differ in nothing but the case of letters |
| ProgramOptions.NamesStay | src/redapid/program.c:1405-1591 | the names of options are locked strings, so no update of anything else changes what the options say |
| ProgramOptions.Reappending | src/redapid/program.c:1565-1585 | an option taken out and put back at the end: exactly when the order is the same, and exactly when lookups find the same |
| ProgramOptions.Removing | src/redapid/program.c:1536-1591 | removing the first option of a name uncovers the next one of that name and leaves all other names alone |
| ProgramOptions.NoNext | src/redapid/program.c:1536-1591 | when all names are different, nothing comes to light, and the order is kept only for the last option |
| ProgramPins.SwapCommand | src/redapid/program.c:720-744 | releasing the old objects after acquiring the new ones leaves exactly the references of the new configuration, even when they are the same objects |
| Processes.Process.WaitOnce | src/redapid/process.c:133-200 | the waiting thread writes what waitpid reports, each status as a state of its own with its code or signal, except that three exit codes are taken for failures; it ends exactly with a death, or because waitpid or the pipe fails |
| Processes.Process.ReadChange | src/redapid/process.c:202-239 | changes are read in order; a process that has died has no pid and nothing left to report; a reference that is given up on its death is given up exactly once |
| Processes.Process.DeadIsFinal | src/redapid/process.c:133-239 | a dead process stays dead |
| Processes.Process.AliveIsReported | src/redapid/process.c:133-239 | something will be reported about a process that is alive to the daemon, unless its thread gave up |
| Scheduling.Cron.AddEntry | src/redapid/cron.c:181-317 | at most one entry per program; a failure takes a new entry back and keeps an old one; a success leaves an entry if and only if the table is not empty, or the uninitialised pointer is not stale, or another call fails before |
| Scheduling.Cron.RemoveEntry | src/redapid/cron.c:319-339 | exactly the entry of the program goes |
| Scheduling.Monitor.AddObserver | src/redapid/process_monitor.c:246-405 | the observer is registered, or called back before this returns and then started, and exactly which; a failure leaves no trace |
| Scheduling.Monitor.RemoveObserver | src/redapid/process_monitor.c:407-439 | exactly the first occurrence of the observer goes |
| Scheduling.Monitor.Count | src/redapid/process_monitor.c:183-208 | a tick uses two seconds of the timeout; waiting ends when the process is found or the time is used up |
| Scheduling.Scheduler.Stop | src/redapid/program_scheduler.c:277-316 | no observer, no cron entry and, if it can be stopped, no timer is left; the message is the one given; in a nested call nothing happens and the message is lost |
| Scheduling.Scheduler.HandleError | src/redapid/program_scheduler.c:77-106 | the scheduler is stopped with a message, if there is memory for one |
| Scheduling.Scheduler.Start | src/redapid/program_scheduler.c:206-275 | it is running afterwards if and only if the calls its mode needs succeed, and then its trigger is in place; only always mode spawns a process at once; one that waits for Brick Daemon gets here only from its observer |
| Scheduling.Scheduler.SpawnProcess | src/redapid/program_scheduler.c:1185-1299 | never a second process beside a live one; otherwise a new one with the pid that it was given, or stopped with an error |
| Scheduling.Scheduler.StartProcess | src/redapid/program.c:1328-1332 | a request to start a process, in any state and mode and even after shutting down: the same as above, and no scheduler is left running without its trigger |
| Scheduling.Scheduler.HandleProcessStateChange | src/redapid/program_scheduler.c:108-162 | stopped after an error unless told to continue; in always mode the timer for the next process is armed |
| Scheduling.Scheduler.HandleObserver | src/redapid/program_scheduler.c:172-182 | the observer leaves the list and the scheduler starts, once, even if it still waits for Brick Daemon |
| Scheduling.Scheduler.HandleTimer | src/redapid/program_scheduler.c:184-194 | exactly one process more when it is running in a timed mode and none is alive |
| Scheduling.Scheduler.HandleCron | src/redapid/program_scheduler.c:196-204 | the same for cron mode |
| Scheduling.Scheduler.PrepareFilesystem | src/redapid/program_scheduler.c:318-529 | which failures stop the scheduler, which of them are nevertheless a success, and whether the stored names are those of this update |
| FilesystemNames.StoredNames.Prepare | src/redapid/program_scheduler.c:318-529 | for any answers and any earlier names: which call fails first; a release without a pin if and only if the string of the working directory was made and the directory was not; new strings that stay pinned with no owner if and only if the directory for stderr fails, and then exactly those; otherwise the pins are exactly those of the stored names, swapped on success, and the whole state is restored on failure; the stored strings say what was planned |
| FilesystemNames.PrepareFilesystem | src/redapid/program_scheduler.c:318-529 | names and scheduler together: names are replaced exactly when the scheduler goes on undisturbed, and the scheduler knows in every case whether there are names |
| FilesystemNames.NewOnesGone | src/redapid/program_scheduler.c:497-529 | when strings were added to a valid inventory and all pins are as before, so is the whole state |
| Scheduling.Scheduler.Update | src/redapid/program_scheduler.c:1110-1155 | what is started or stopped, depending on preparation, connection, observer and mode, although adding the observer may call back and start first, even when Brick Daemon is waited for; a failure for stderr alone stops the scheduler and then starts it |
| Scheduling.Scheduler.Continue | src/redapid/program_scheduler.c:1157-1168 | a stopped scheduler with a mode starts; anything else is left alone |
| Scheduling.Scheduler.Shutdown | src/redapid/program_scheduler.c:1170-1183 | stopped for good, out of both tables; a live process is killed |
| Scheduling.Scheduler.SetSchedule | src/redapid/program_scheduler.c:1110-1155 | a change of the schedule leaves no scheduler running without the trigger of its new mode |
| SchedulerWorld.World.ProcessChanged | src/redapid/process.c:202-239 | every change that is reported comes from the last process of its scheduler, which was alive; the scheduler stops or arms its timer accordingly, and no other one changes |
| SchedulerWorld.World.Tick | src/redapid/process_monitor.c:183-225 | while waiting nobody is called; at the end every observer is called exactly once, last one first, although each removes itself, and starts if it can; no other scheduler changes |
| SchedulerWorld.World.Notify | src/redapid/process_monitor.c:216-223 | the backward loop over a list that shrinks under it |
| SchedulerWorld.World.Connect | src/redapid/network.c:64-102 | every scheduler that waits for Brick Daemon is updated, with the effect of an update on it alone; the others are unchanged, and nobody waits any longer |
| SchedulerWorld.World.CronNotified | src/redapid/cron.c:341-371 | the scheduler with this identifier, if its cron entry is there, handles the notification; every other scheduler is unchanged |
| SchedulerWorld.World.StartProcess | src/redapid/program.c:1328-1332 | a request to start a process affects this scheduler alone and keeps the invariant of all, whether it was shut down or not |
| SchedulerWorld.World.StuckForGood | src/redapid/process.c:133-200 | from any state to any later one: a process about which nothing more is reported stays the last one of its scheduler for ever |
| SchedulerWorld.World.Register | src/redapid/program_scheduler.c:941-1074 | a new scheduler is stopped and changes nothing for the others |
| EventLoop.Handle | src/redapid/program_scheduler.c:57-316 | any event in any valid state, a request to start a process included, keeps the invariant of all schedulers; shutting down, death, silence and the stages of an observer are final, and no process is forgotten; a scheduler that was shut down gets another process if and only if a client asks for it, none is alive and the calls work |
| EventLoop.Run | src/redapid/program_scheduler.c:1110-1299 | so does any run of events; without a request to start a process a scheduler that was shut down never gets one |
| EventLoop.NeverStalls | src/redapid/program_scheduler.c:108-316 | a running scheduler has its trigger: a timer or a live process whose death will be reported unless its thread gave up, a periodic timer of its interval, or a cron entry that notifies it; never in mode never, never when shut down, never while waiting for the observer |
| EventLoop.CronTableTellsTheTruth | src/redapid/cron.c:181-339 | the cron flag is set if and only if the table has the program, once, and for this scheduler |
| EventLoop.AtMostOneAlive | src/redapid/program_scheduler.c:1185-1299 | of all processes a scheduler ever spawned at most one is alive, the last one |
| EventLoop.WaitingMeansObserving | src/redapid/process_monitor.c:246-439 | a scheduler waits if and only if it is registered, exactly once, with an observation that has time left; it is not running then |
| EventLoop.OnlyObserversStartEarly | src/redapid/program_scheduler.c:172-182 | a scheduler that is running while it waits for Brick Daemon was called back as an observer, and Brick Daemon is not connected |
| EventLoop.NobodyWaitsInVain | src/redapid/program_scheduler.c:1110-1155 | while Brick Daemon is connected only a scheduler that was shut down waits for it |
| IntegerText.PrintBinary | src/redapid/program_config.c:145-191 | the digits written from right to left into the buffer are the padded binary digits of the number, inside of the buffer |
| IntegerText.ParseBinary | src/redapid/program_config.c:212-233 | reading from right to left in 64-bit arithmetic gives the value of the digits without a wrong wrap-around |
| IntegerText.GetInteger | src/redapid/program_config.c:193-266 | the number that the text stands for, or the default |
| IntegerText.BinaryRoundTrip | src/redapid/program_config.c:145-266 | every 64-bit number is read back from base 2 for widths up to 64, and refused for greater ones |
| IntegerText.DecimalRoundTrip | src/redapid/program_config.c:145-266 | a number is read back from base 10 if and only if it is at most 2^63 - 1 |
| IntegerText.DecimalText | src/redapid/program_config.c:234-266 | decimal digits have their value if it fits; a plus sign changes nothing, a number below zero is refused |
| IntegerText.OctalText | src/redapid/program_config.c:234-266 | digits after a leading zero are read in base 8 |
| IntegerText.HexText | src/redapid/program_config.c:234-266 | digits after a leading 0x are read in base 16 |
| IntegerText.MoreBehind | src/redapid/program_config.c:234-266 | anything behind the digits is refused |
| IntegerText.SpaceInFront | src/redapid/program_config.c:209-236 | white space in front does not matter, and an empty text is zero |
| IntegerText.DecimalDigits | src/redapid/program_config.c:145-191 | the decimal digits that are written, from the last one on |
| ConfigNames.FieldsDiffer | src/redapid/program_config.c:1053-1239 | the fixed option names are different without regard to case |
| ConfigNames.ItemsDiffer | src/redapid/program_config.c:371-393 | the names of different items of a list are different |
| ConfigNames.SymbolsRoundTrip | src/redapid/program_config.c:41-80 | every redirection and start mode is read back from its name |
| ConfigFile.ConfFile.SetStringList | src/redapid/program_config.c:338-396 | the length, exactly the items, none of an earlier longer list, and nothing else; it fails exactly when there is memory for fewer options than are set |
| ConfigFile.ConfFile.SetCustomOptions | src/redapid/program_config.c:1228-1250 | the custom options one by one, so that one is left per name; it fails exactly when a name is too long or there is memory for fewer options |
| ConfigFile.SettledOnce | src/redapid/program_config.c:1228-1250 | setting options one by one leaves every name once, and all options exactly if their names are different |
| ConfigFile.LastCounts | src/redapid/program_config.c:1228-1250 | of several options with one name the last value counts |
| ConfigFile.Save | src/redapid/program_config.c:1053-1269 | over any earlier contents the file says exactly what the configuration says; options that are not its own stay; it fails exactly when a custom name is too long, an option cannot be stored or the file cannot be written, and then the file is untouched |
| ConfigFile.FormatOfCommand | src/redapid/program_config.c:1079-1113 | the names under which a saved file has executable, arguments, environment and working directory, and their values |
| ConfigFile.FormatOfStreams | src/redapid/program_config.c:1115-1185 | the same for the redirections, with the name of each symbol |
| ConfigFile.FormatOfSchedule | src/redapid/program_config.c:1187-1226 | the same for the schedule |
| ConfigFile.FormatOfOptions | src/redapid/program_config.c:1228-1250 | under the name of a custom option the file has the last value given for it, without regard to case |
| ConfigLoading.Load | src/redapid/program_config.c:620-1051 | the configuration a file stands for, whatever it contains |
| ConfigLoading.CommandLoaded | src/redapid/program_config.c:668-705 | for any file: executable, working directory and the items of both lists in terms of its lines, with the defaults for what is missing and the cast of lengths |
| ConfigLoading.StdinLoaded | src/redapid/program_config.c:708-745 | for any file: stdin is redirected if and only if the file says so with a symbol that makes sense for it, and, for a file, with a name |
| ConfigLoading.StdoutLoaded | src/redapid/program_config.c:749-785 | the same for stdout |
| ConfigLoading.StderrLoaded | src/redapid/program_config.c:789-824 | the same for stderr |
| ConfigLoading.ScheduleLoaded | src/redapid/program_config.c:828-862 | the same for mode, cron fields with their default, interval cut to 32 bits, and the flag |
| ConfigLoading.GetStringList | src/redapid/program_config.c:398-451 | the items of a list, with the length cast as the code does |
| ConfigLoading.SavedIsLoaded | src/redapid/program_config.c:620-1269 | what is loaded after saving any configuration over any earlier file, as a function of that configuration alone |
| ConfigLoading.RoundTrip | src/redapid/program_config.c:620-1269 | a saved configuration is loaded as it was if and only if its redirections make sense for their streams, its file names and cron fields are not empty, and the names of its custom options are different |
| ConfigLoading.LoadedIsLoadable | src/redapid/program_config.c:620-1051 | whatever a file contains, what is loaded meets that condition, except for the names of custom options |
| ConfigLoading.LoadedRoundTrip | src/redapid/program_config.c:620-1269 | loading any file, saving and loading again gives the same if and only if the names of its custom options are different; after that nothing changes any more |
| AcceptedConfigs.AcceptedIsLoadable | src/redapid/program.c:854-1249 | whatever the requests accept can be read back if and only if stderr is not a pipe |
| AcceptedConfigs.AcceptedStays | src/redapid/program.c:639-1249 | what was accepted stays acceptable over any respectful step of the inventory, because the strings and lists that are named are locked |
| AcceptedConfigs.Perform | src/redapid/program.c:639-1591 | any request, successful or not, leaves a configuration that is acceptable again: the redirections fit stdin and stdout, named strings exist and are not empty, lists are short enough |
| AcceptedConfigs.RestartKeeps | src/redapid/program.c:883-908 | an accepted configuration is loaded as it was saved if and only if stderr is not a pipe and the names of its custom options are different |
| AcceptedConfigs.Reload | src/redapid/program_config.c:620-1269 | the same for the settings that are read off the objects of a program, over any earlier file, and when saving fails |
| AcceptedConfigs.CommandIsSaved | src/redapid/program_config.c:1079-1113 | the file has the texts of the strings and items that the program names |
| AcceptedConfigs.StreamsAreSaved | src/redapid/program_config.c:1115-1226 | the same for redirections and schedule |
| AcceptedConfigs.OptionIsSaved | src/redapid/program_config.c:1228-1250 | the same for every custom option, if their names are different |
| AcceptedConfigs.Restart | src/redapid/program.c:639-1591 | the same after any sequence of requests |
| BrickDaemon.ParseMore | src/redapid/brickd.c:70-117 | parsing a stream is parsing its beginning and then what is left over with the rest |
| BrickDaemon.Connection.HandleRead | src/redapid/brickd.c:37-118 | after every receive exactly the requests of the bytes so far were handled, each header was checked once, and there is room to receive more while connected; the connection is lost exactly when the peer is gone or a response cannot be sent |
| BrickDaemon.ReceiveAll | src/redapid/brickd.c:37-118 | however a stream is split into receives, the requests handled are those of the whole stream |
| StringObject.OverlayAt | src/redapid/string.c:307-363 | every position has the byte of the chunk, of the old text, or a space |
| StringObject.ChunksCommute | src/redapid/string.c:307-363 | chunks that do not overlap can be written in any order |
| StringObject.LastChunkCounts | src/redapid/string.c:307-363 | writing again in the same place replaces what was written |
| StringObject.String.Truncate | src/redapid/string.c:283-297 | the text is cut, never extended, and terminated when it is cut; a locked string is unchanged |
| StringObject.String.Reserve | src/redapid/string.c:55-85 | the bytes are kept, and there is room for the terminator |
| StringObject.String.SetChunk | src/redapid/string.c:307-363 | each error in its order; the text is the overlay; whether the string is terminated afterwards, also when it was not before |
| StringObject.String.GetChunk | src/redapid/string.c:366-403 | the text from the offset on, filled up with zeros |
| StringObject.ChunkSays | src/redapid/string.c:366-403 | a chunk tells how much text there is in it |
| StringObject.Upload | src/redapid/string.c:307-363 | a text uploaded in chunks of 58 bytes into a string of any size, whose buffer grows on the way, is the text of the string; it is terminated if and only if it does not fill the buffer exactly, whose size is a function of the two lengths |
| StringObject.Transfer | src/redapid/string.c:55-403 | any text uploaded in chunks of 58 and downloaded in chunks of 63 bytes is returned exactly, whatever was reserved for it and however allocations are rounded up |
| AsyncRead.File.ReadAsync | src/redapid/file.c:1173-1213 | a read begins, or is refused with a callback that changes nothing; if the event source is not taken, it is in progress all the same |
| AsyncRead.File.HandleEvent | src/redapid/file.c:354-424 | one callback of at most 60 bytes; delivered and left add up to what was requested; it ends with the last byte, with nothing to read, or with an error |
| AsyncRead.File.Abort | src/redapid/file.c:1216-1228 | no read is in progress afterwards, and the client is told if one was |
| AsyncRead.File.ReadSync | src/redapid/file.c:1130-1170 | refused while an asynchronous read is in progress, without moving the position; otherwise the bytes at the position, as many as read(2) returns |
| AsyncRead.File.Write | src/redapid/file.c:1231-1270 | refused while an asynchronous read is in progress, without changing the file; otherwise the bytes written replace those at the position, a gap is filled with zeros, and every other byte stays |
| AsyncRead.WriteAndRead | src/redapid/file.c:1130-1270 | what is written at any position, seeking back, is read back |
| AsyncRead.File.SetPosition | src/redapid/file.c:1356-1395 | the same for seeking |
| AsyncRead.Handle | src/redapid/file.c:1130-1395 | whatever is requested during a read, the callbacks together are one contiguous part of the file from where the read began |
| AsyncRead.ReadWhole | src/redapid/file.c:354-424 | a read without errors delivers exactly the requested bytes, or what there is of them |
| Sha1.MacroIsF | src/tests/ip_connection.c:166-171 | the shortened round functions are those of RFC 3174, section 5 |
| Sha1.WindowMoves | src/tests/ip_connection.c:162-168 | the window of 16 words yields the 80-word schedule, on hosts of either byte order |
| Sha1.Transform | src/tests/ip_connection.c:173-223 | 80 rounds with rotating variables compute the function of RFC 3174, section 6.1 |
| Sha1.Context.Update | src/tests/ip_connection.c:234-256 | the state is that of the message so far, however it is cut into pieces |
| Sha1.Context.Final | src/tests/ip_connection.c:258-279 | the digest of the padded message as in section 4 of RFC 3174 |
| Sha1.HashParts | src/tests/ip_connection.c:225-279 | the digest depends only on the concatenation of the pieces |
| Sha1.HmacSha1 | src/tests/ip_connection.c:413-459 | the keyed digest of section 2 of RFC 2104, for keys of any length |
| Sha1Spec.AbsorbAppend | src/tests/ip_connection.c:234-256 | absorbing whole blocks and then more is absorbing all of it |
| Sha1Spec.ConstantsAreRoots | src/tests/ip_connection.c:166-171 | the constants are the first 32 bits of the square roots of 2, 3, 5 and 10 |
| Sha1Spec.InitialState | src/tests/ip_connection.c:225-232 | the initial state in bytes, with the words that are complements of each other |
| Sha1Spec.RotatedBy1 | src/tests/ip_connection.c:160 | a rotation by one moves all bits up and the highest to the lowest place |
| Sha1Spec.RotatedBy5 | src/tests/ip_connection.c:160 | the same by five |
| Sha1Spec.RotatedBy30 | src/tests/ip_connection.c:160 | the same by thirty |
| Sha1Spec.Choices | src/tests/ip_connection.c:166-171 | the functions of the rounds choose, add and take the majority |
| Sha1Spec.LengthInBytes | src/tests/ip_connection.c:258-279 | the length is appended as eight bytes, the most significant first |
| Departures.DanglingRecord | src/redapid/object.c:121-133 | a record of an object that never existed, in an inventory without objects |
| Departures.ForgottenDirectory | src/redapid/program.c:709-715 | a refused command after which nobody owns one of the references to its directory |
| Departures.OptionMoved | src/redapid/program.c:1565-1585 | the first of two options, not removed, is the last one |
| Departures.OptionLost | src/redapid/program.c:1565-1585 | the option is gone although removing it failed, and two references are lost |
| Departures.DoubleRelease | src/redapid/program_scheduler.c:346-359 | the working directory of the first update cannot be made: the second release finds no object, in an inventory that is empty again |
| Departures.LostNames | src/redapid/program_scheduler.c:452-475 | no names are stored, and four strings stay pinned that belong to nobody |
| Departures.SuccessWithoutProcess | src/redapid/process.c:793-795 | success with seven proper parameters, but no process object |
| Departures.StuckRead | src/redapid/file.c:1194-1201 | a read in progress without an event source, which keeps the file from being written |
| Departures.PipeForStderr | src/redapid/program.c:901-902 | a pipe for stderr is accepted, the settings of this program are saved, and what is loaded differs |
| Departures.OptionDoubled | src/redapid/program_config.c:1228-1250 | two options with names that differ in case are loaded; one is left after saving |
| Departures.NotReadBack | src/redapid/program_config.c:145-266 | the smallest number and the smallest width that are not read back |
| Departures.LostMessage | src/redapid/program_scheduler.c:277-303 | a scheduler that was shut down, with a timer that still runs and a message that is lost |
| Departures.StartsUnprepared | src/redapid/program_scheduler.c:452-475 | a scheduler that runs without file names |
| Departures.StartedEarly | src/redapid/program_scheduler.c:172-182 | a scheduler that runs while it waits for Brick Daemon |
| Departures.EntryLost | src/redapid/cron.c:220-232 | a success of adding an entry to an empty table, which stays empty |
| Departures.SpawnedAfterShutdown | src/redapid/program.c:1328-1332 | a live process of a scheduler that was shut down |
| Departures.Stalled | src/redapid/process.c:133-200 | a scheduler in always mode that waits for a death that will not be reported |

## Left out

- daemonlib is not part of this model: arrays and rings are sequences, timers are armed or not, a configuration file is a list of options with case-insensitive names, and a valid request header has a length between 8 and 80. The text format of configuration files is not modelled.
- Sockets, pipes, fork and exec, signals, identities, ACLs, directories and /proc appear only as answers of success or failure.
- Inventory.Inventory.CreateObject: after the failure that leaves a record dangling the state is no longer valid, and nothing is claimed about what follows.
- Inventory.Inventory.Run: the kinds of objects that files, directories, processes and programs may hold are those documented in inventory.c; giving such references back to live objects in other ways is not modelled. While a configuration is loaded, items are appended directly to a list that is already locked (program_config.c:436-443), past the refusal of list_append_to; no request does this, so a list counts as frozen from the moment it is complete.
- ProcessSpawn.Spawn: a failure to allocate the argument arrays is one of the failures of the system, and the seven acquisitions written one after the other are a loop over seven rules; after the failure that leaves a record dangling nothing is claimed about giving back the seven references.
- ProcessSpawn.SpawnAndDestroy: the release of the last reference stands for the scheduler replacing its last process.
- ConfigLoading.Load: models the case with enough memory. The roll-back of the references it takes has the form of the updates in ProgramUpdates; that a list which could not be filled is released and returned with a success (program_config.c:436-450) is not part of this model.
- ConfigLoading.GetStringList: the same; lists are values here.
- StringObject.String.SetChunk: the size to which allocations are rounded up is a parameter between what is needed and the documented maximum.
- AsyncRead.File.Write: the unchecked and asynchronous variants of writing have the same guard; files that are opened for appending, and changes of a file by others during a read, are not modelled.
- BrickDaemon.Connection.HandleRead: what a request does is not part of the packet reassembly; whether a response can be sent is a parameter.
- Sha1.HashParts: messages are shorter than 2^61 bytes, as RFC 3174 demands.
- Sha1.Context.Update: size_t has 64 bits; with 32, a single piece of 2^29 bytes or more would be counted wrongly, as its length is shifted before it is added.
- Scheduling.Scheduler.SpawnProcess: takes a success of process_spawn to mean that there is a process; the success without one (`ProcessSpawn.Spawn`) leaves the scheduler with an uninitialised pointer, and nothing is claimed about what follows. The same goes for the null pointer that is followed when no file names were ever stored.
- Scheduling.Scheduler.StartCron: takes the uninitialised pointer of cron_add_entry to be NULL; what a stale one does to the table is stated for `Scheduling.Cron.AddEntry` alone.
- Scheduling.Scheduler.PrepareFilesystem: whether names are stored, not which; `FilesystemNames.PrepareFilesystem` puts the two together for one scheduler, and the world of all schedulers is without names. After a string was released twice, what the second release does to freed memory is not modelled.
- Scheduling.Scheduler.Start: an interval of zero seconds, which only an edited file can ask for, leaves the timer off.
- Destruction of a program while its scheduler is in use, and the shutdown of the daemon, are left out; so are API dispatch, logging, signatures, time stamps and the names of log files.
