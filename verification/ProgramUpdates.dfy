/** Configuration updates of a program object (program.c): new objects are acquired first,
    the configuration is overwritten and saved, and then either the old objects are released
    or the backup is restored and the new ones are released. */
module ProgramUpdates {
  import opened Wrappers
  import opened ObjectGraph
  import opened RequestEffects
  import opened Inventory
  import opened ProgramTypes
  import opened ProgramPins
  import opened ProgramOptions

  datatype UpdateError =
    | Updated | Purged | InvalidParameter | UnknownId | WrongItemType | NotSaved | NoMemory | DoesNotExist

  /** The first of two steps that fails. */
  ghost function First(e: UpdateError, rest: UpdateError): UpdateError { if e.Updated? then rest else e }

  // ----- why a parameter is refused -----

  /** A text parameter: it must name a string, and the string must not be empty. */
  ghost function TextError(objects: Objects, needed: bool, id: nat): UpdateError {
    if needed && !Named(objects, StringKind, id) then UnknownId
    else if needed && Blank(objects, id) then InvalidParameter
    else Updated
  }

  /** A list parameter: it must name a list, and all items must be strings. */
  ghost function ListError(objects: Objects, id: nat): UpdateError {
    if !Named(objects, ListKind, id) then UnknownId
    else if Mixed(objects, id) then WrongItemType
    else Updated
  }

  lemma SameFaults(a: Objects, b: Objects, kind: Kind, id: nat)
    requires Alike(a, b)
    ensures Named(a, kind, id) == Named(b, kind, id) && Blank(a, id) == Blank(b, id) && Mixed(a, id) == Mixed(b, id)
  {
    assert forall k, x :: IsTyped(a, k, id, x) == IsTyped(b, k, id, x);
  }

  lemma AlikeErrors(a: Objects, b: Objects)
    requires Alike(a, b)
    ensures forall needed, id :: TextError(a, needed, id) == TextError(b, needed, id)
    ensures forall id :: ListError(a, id) == ListError(b, id)
    ensures forall kind, id, x :: IsTyped(a, kind, id, x) == IsTyped(b, kind, id, x)
  {
    forall kind, id, x
      ensures IsTyped(a, kind, id, x) == IsTyped(b, kind, id, x)
    {
    }
    hide IsTyped;
    forall kind, id
      ensures Named(a, kind, id) == Named(b, kind, id) && Blank(a, id) == Blank(b, id) && Mixed(a, id) == Mixed(b, id)
    {
      SameFaults(a, b, kind, id);
    }
  }

  /** The error path of program_set_command that forgets the new working directory: all
      other parameters are fine, and the directory is an existing but empty string. */
  ghost predicate LeaksDirectory(objects: Objects, executableId: nat, argumentsId: nat, environmentId: nat,
                                 workingDirectoryId: nat) {
    && Named(objects, StringKind, executableId) && !Blank(objects, executableId)
    && Named(objects, ListKind, argumentsId) && !Mixed(objects, argumentsId)
    && Named(objects, ListKind, environmentId) && !Mixed(objects, environmentId)
    && Named(objects, StringKind, workingDirectoryId) && Blank(objects, workingDirectoryId)
  }

  lemma OneOfItsId(s: State, kind: Kind, id: nat)
    requires Inv(s)
    ensures forall x, y | IsTyped(s.objects, kind, id, x) && IsTyped(s.objects, kind, id, y) :: x == y
  {
    hide Counted, RingsOk, Acyclic, InUse;
  }

  lemma AlikeTransitive(a: Objects, b: Objects, c: Objects)
    requires Alike(a, b) && Alike(b, c)
    ensures Alike(a, c)
  {
  }

  /** The references that nobody will give back: those of an option that is lost. */
  ghost function LostPins(o: CustomOption, e: UpdateError, appended: bool): multiset<Hold> {
    if e.NotSaved? && !appended then Locked(o.name) + Locked(o.value) else multiset{}
  }

  /** What removing option i comes to. When it cannot be saved, the order is kept if the option
      comes back and nothing else follows it, and the meaning if it comes back as the only one
      with its name, or if the next one with its name has the same value. */
  ghost predicate Dropped(objects: Objects, before: seq<CustomOption>, objects': Objects, after: seq<CustomOption>,
                          i: nat, e: UpdateError, appended: bool)
    requires i < |before|
  {
    var next, without := Next(objects, before, i), WithoutOption(before, i);
    && after == (if e.NotSaved? && appended then without + [before[i]] else without)
    && (e.Updated? || !appended ==> OnlyOption(objects, before, objects', after, Key(objects, before[i]), next))
    && (e.NotSaved? ==> (after == before <==> appended && forall k | i < k < |before| :: before[k] == before[i]))
    && (e.NotSaved? ==>
          (SameOptions(objects, before, objects', after) <==>
           next == Some(before[i].value) || (appended && next.None?)))
  }

  /** The same for the option that a lookup under the named string finds, with the references that
      are lost. */
  ghost predicate TakenOut(objects: Objects, before: seq<CustomOption>, objects': Objects, after: seq<CustomOption>,
                           nameId: nat, e: UpdateError, appended: bool, others: multiset<Hold>, others': multiset<Hold>)
  {
    forall name, i: nat | IsTyped(objects, StringKind, nameId, name)
                          && IsFirst(objects, before, i, Folded(objects[name].text)) ::
      Dropped(objects, before, objects', after, i, e, appended) && others' == others + LostPins(before[i], e, appended)
  }

  lemma MovePart(a: multiset<Hold>, b: multiset<Hold>, c: multiset<Hold>)
    ensures a + (b + c) == (a + c) + b
  {
  }

  lemma NotDropped(objects: Objects, before: seq<CustomOption>, after: seq<CustomOption>, i: nat, key: string,
                   appended: bool)
    requires IsFirst(objects, before, i, key)
    requires after == if appended then WithoutOption(before, i) + [before[i]] else WithoutOption(before, i)
    ensures Dropped(objects, before, objects, after, i, NotSaved, appended)
    ensures NamesDiffer(objects, before) ==> NamesDiffer(objects, after)
  {
    var without := WithoutOption(before, i);
    assert |without| < |before|;
    hide NamesDiffer, ValueFor, OnlyOption, SameOptions, Next, WithoutOption;
    Reappending(objects, before, i, key);
    Removing(objects, before, i, key);
  }

  lemma PinsWithoutOption(pins: multiset<Hold>, rest: multiset<Hold>, o: CustomOption)
    requires pins == rest + (Locked(o.name) + Locked(o.value))
    ensures Locked(o.name) + Locked(o.value) <= pins && pins - (Locked(o.name) + Locked(o.value)) == rest
  {
  }

  /** The string with this identifier names one of the options. */
  ghost predicate NamesOne(objects: Objects, options: seq<CustomOption>, id: nat) {
    exists name :: IsTyped(objects, StringKind, id, name)
      && ValueFor(objects, options, Folded(objects[name].text)).Some?
  }

  /** The first option with the name gets the value and keeps its place and the way its name is
      written; a new option is the last one. */
  ghost predicate InPlace(objects: Objects, before: seq<CustomOption>, after: seq<CustomOption>, name: Pointer,
                          value: Pointer)
    requires name in objects
  {
    if ValueFor(objects, before, Folded(objects[name].text)).None?
    then after == before + [CustomOption(name, value)]
    else exists i: nat :: IsFirst(objects, before, i, Folded(objects[name].text))
                          && after == before[i := CustomOption(before[i].name, value)]
  }

  class Program {
    const inventory: Inventory
    var purged: bool
    var config: Config
    ghost var others: multiset<Hold>   // pins that are not the configuration's

    /** The configuration owns exactly one locked reference for every object it names. */
    ghost predicate Valid()
      reads this, inventory
    {
      inventory.Valid() && inventory.pins == others + ConfigPins(config)
    }

    constructor (inventory: Inventory, config: Config)
      requires inventory.Valid() && ConfigPins(config) <= inventory.pins
      ensures Valid() && this.inventory == inventory && this.config == config && !purged
      ensures others == inventory.pins - ConfigPins(config)
    {
      hide InvBut, ConfigPins;
      this.inventory, this.config, purged := inventory, config, false;
      others := inventory.pins - ConfigPins(config);
    }

    method IsEmpty(p: Pointer) returns (empty: bool)
      requires p in inventory.objects
      ensures empty <==> inventory.objects[p].text == ""
    {
      empty := inventory.objects[p].text == "";
    }

    /** Gives the last pin back; as all pins are then as they were, so is everything else. */
    method Undo(ghost s: State, p: Pointer)
      requires inventory.Valid() && Inv(s) && Touched(s, inventory.View())
      requires inventory.pins == s.pins + Locked(p)
      modifies inventory
      ensures inventory.Valid() && inventory.View() == s
    {
      hide InvBut, Touched;
      ghost var t := inventory.View();
      inventory.UnlockAndRelease(p);
      TouchedTransitive(s, t, inventory.View());
      GivenBack(s, inventory.View());
    }

    /** Acquires a string that must not be empty, if it is needed at all. */
    method GetText(needed: bool, id: nat, ghost s: State) returns (e: UpdateError, p: Pointer)
      requires inventory.Valid() && Touched(s, inventory.View())
      modifies inventory
      ensures inventory.Valid() && Touched(s, inventory.View())
      ensures e == TextError(old(inventory.objects), needed, id)
      ensures Alike(old(inventory.objects), inventory.objects)
      ensures e.Updated? && needed ==> IsTyped(old(inventory.objects), StringKind, id, p)
      ensures if e.Updated? then inventory.pins == old(inventory.pins) + LockedIf(needed, p)
              else inventory.View() == old(inventory.View())
    {
      hide InvBut, Touched;
      p := 0;
      if !needed {
        return Updated, p;
      }
      ghost var t := inventory.View();
      var found;
      found, p := inventory.GetStringLocked(id);
      if !found.Success? {
        return UnknownId, p;
      }
      var empty := IsEmpty(p);
      if empty {
        Undo(t, p);
        return InvalidParameter, p;
      }
      TouchedTransitive(s, t, inventory.View());
      e := Updated;
    }

    /** list_get_acquired_and_locked for a list of strings. */
    method GetStrings(id: nat, ghost s: State) returns (e: UpdateError, p: Pointer)
      requires inventory.Valid() && Touched(s, inventory.View())
      modifies inventory
      ensures inventory.Valid() && Touched(s, inventory.View())
      ensures e == ListError(old(inventory.objects), id)
      ensures Alike(old(inventory.objects), inventory.objects)
      ensures e.Updated? ==> IsTyped(old(inventory.objects), ListKind, id, p)
      ensures if e.Updated? then inventory.pins == old(inventory.pins) + Locked(p)
              else inventory.View() == old(inventory.View())
    {
      hide InvBut, Touched;
      ghost var t := inventory.View();
      var found;
      found, p := inventory.GetListLocked(id, StringKind);
      if found.UnknownObjectId? {
        return UnknownId, p;
      }
      if found.WrongListItemType? {
        assert IsTyped(t.objects, ListKind, id, p) && !OnlyStrings(t.objects, t.objects[p].holds);
        return WrongItemType, p;
      }
      TouchedTransitive(s, t, inventory.View());
      e := Updated;
    }

    /** Releases a string that was acquired if it was needed. */
    method ReleaseIf(needed: bool, p: Pointer, ghost s: State)
      requires inventory.Valid() && LockedIf(needed, p) <= inventory.pins && Touched(s, inventory.View())
      modifies inventory
      ensures inventory.Valid() && inventory.pins == old(inventory.pins) - LockedIf(needed, p)
      ensures Touched(s, inventory.View())
    {
      hide InvBut, Touched;
      if needed {
        ghost var t := inventory.View();
        assert Hold(p, true) in Locked(p);
        inventory.UnlockAndRelease(p);
        TouchedTransitive(s, t, inventory.View());
      }
    }

    /** program_set_schedule. */
    method SetSchedule(mode: Option<StartMode>, continueAfterError: bool, startInterval: nat, startFieldsId: nat,
                       saved: bool)
      returns (e: UpdateError)
      requires Valid()
      modifies this`config, inventory
      ensures Valid() && Touched(old(inventory.View()), inventory.View())
      ensures e == if purged then Purged
                   else if mode.None? || startInterval < 1 then InvalidParameter
                   else if mode.value.Cron? && !Named(old(inventory.objects), StringKind, startFieldsId) then UnknownId
                   else if mode.value.Cron? && Blank(old(inventory.objects), startFieldsId) then InvalidParameter
                   else if !saved then NotSaved
                   else Updated
      ensures if e.Updated? then
                && config == old(config).(startMode := mode.value, continueAfterError := continueAfterError,
                                          startInterval := startInterval, startFields := config.startFields)
                && (mode.value.Cron? ==> IsTyped(old(inventory.objects), StringKind, startFieldsId, config.startFields))
              else config == old(config) && inventory.View() == old(inventory.View())
    {
      hide InvBut, Touched, ConfigPins, LockedIf, Named, Blank, IsTyped;
      ghost var s := inventory.View();
      TouchedNothing(s);
      if purged {
        return Purged;
      }
      if mode.None? || startInterval < 1 {
        return InvalidParameter;
      }
      var startFields;
      e, startFields := GetText(mode.value.Cron?, startFieldsId, s);
      if !e.Updated? {
        return;
      }
      var backup := config;
      config := config.(startMode := mode.value, continueAfterError := continueAfterError,
                        startInterval := startInterval, startFields := startFields);
      if !saved {
        config := backup;
        ReleaseIf(mode.value.Cron?, startFields, s);
        GivenBack(s, inventory.View());
        return NotSaved;
      }
      SwapSchedule(others, backup, config);
      ReleaseIf(backup.startMode.Cron?, backup.startFields, s);
      e := Updated;
    }

    /** program_set_command. An empty working directory is refused without giving back the
        reference just taken to it; in every other case an error changes nothing at all. */
    method SetCommand(executableId: nat, argumentsId: nat, environmentId: nat, workingDirectoryId: nat, saved: bool)
      returns (e: UpdateError)
      requires Valid()
      modifies this`config, this`others, inventory
      ensures Valid() && Touched(old(inventory.View()), inventory.View())
      ensures e == if purged then Purged
                   else if !Named(old(inventory.objects), StringKind, executableId) then UnknownId
                   else if Blank(old(inventory.objects), executableId) then InvalidParameter
                   else if !Named(old(inventory.objects), ListKind, argumentsId) then UnknownId
                   else if Mixed(old(inventory.objects), argumentsId) then WrongItemType
                   else if !Named(old(inventory.objects), ListKind, environmentId) then UnknownId
                   else if Mixed(old(inventory.objects), environmentId) then WrongItemType
                   else if !Named(old(inventory.objects), StringKind, workingDirectoryId) then UnknownId
                   else if Blank(old(inventory.objects), workingDirectoryId) then InvalidParameter
                   else if !saved then NotSaved
                   else Updated
      ensures if e.Updated? then
                && others == old(others)
                && config == old(config).(executable := config.executable, arguments := config.arguments,
                                          environment := config.environment,
                                            workingDirectory := config.workingDirectory)
                && IsTyped(old(inventory.objects), StringKind, executableId, config.executable)
                && IsTyped(old(inventory.objects), ListKind, argumentsId, config.arguments)
                && IsTyped(old(inventory.objects), ListKind, environmentId, config.environment)
                && IsTyped(old(inventory.objects), StringKind, workingDirectoryId, config.workingDirectory)
              else config == old(config)
      ensures !e.Updated? ==> (inventory.View() == old(inventory.View())
                               <==> purged || !LeaksDirectory(old(inventory.objects), executableId, argumentsId,
                                                              environmentId, workingDirectoryId))
      ensures inventory.View() == old(inventory.View()) ==> others == old(others)
      ensures !purged && LeaksDirectory(old(inventory.objects), executableId, argumentsId, environmentId,
                                        workingDirectoryId) ==>
                forall x | IsTyped(old(inventory.objects), StringKind, workingDirectoryId, x) ::
                  others == old(others) + Locked(x)
    {
      hide InvBut, Touched, ConfigPins, CommandPins, ThreePins, Named, Blank, Mixed, IsTyped, Alike;
      ghost var s := inventory.View();
      TouchedNothing(s);
      if purged {
        return Purged;
      }
      var c;
      e, c := AcquireCommand(executableId, argumentsId, environmentId, s);
      if !e.Updated? {
        return;
      }
      e := FinishCommand(c, workingDirectoryId, saved, s);
    }

    /** The last parameter of a command, and the update itself. */
    method FinishCommand(c: Config, workingDirectoryId: nat, saved: bool, ghost s: State) returns (e: UpdateError)
      requires inventory.Valid() && Inv(s) && Touched(s, inventory.View()) && Alike(s.objects, inventory.objects)
      requires s.pins == others + ConfigPins(config) && inventory.pins == s.pins + ThreePins(c)
      requires c == config.(executable := c.executable, arguments := c.arguments, environment := c.environment)
      modifies this`config, this`others, inventory
      ensures Touched(s, inventory.View())
      ensures Valid()
      ensures e == First(TextError(s.objects, true, workingDirectoryId), if !saved then NotSaved else Updated)
      ensures e.Updated? ==>
                && others == old(others) && config == c.(workingDirectory := config.workingDirectory)
                && IsTyped(s.objects, StringKind, workingDirectoryId, config.workingDirectory)
      ensures !e.Updated? ==> config == old(config) && (inventory.View() == s <==> !e.InvalidParameter?)
      ensures !e.InvalidParameter? ==> others == old(others)
      ensures e.InvalidParameter? ==>
                forall x | IsTyped(s.objects, StringKind, workingDirectoryId, x) :: others == old(others) + Locked(x)
    {
      hide InvBut, Touched, ConfigPins, CommandPins, ThreePins, TextError, IsTyped, Alike, Locked;
      AlikeErrors(s.objects, inventory.objects);
      OneOfItsId(s, StringKind, workingDirectoryId);
      var workingDirectory;
      e, workingDirectory := GetDirectory(workingDirectoryId, s);
      if e.UnknownId? {
        ReleaseThree(c, s);
        GivenBack(s, inventory.View());
        return;
      }
      if e.InvalidParameter? {
        LeakedPins(s.pins, others, config, ThreePins(c), workingDirectory);
        others := others + Locked(workingDirectory);
        ReleaseThree(c, s);
        return;
      }
      WithDirectory(s.pins, c, workingDirectory);
      e := CommitCommand(c.(workingDirectory := workingDirectory), saved, s);
    }

    /** Overwrites the command and saves it; then either the old or the new objects go. */
    method CommitCommand(c: Config, saved: bool, ghost s: State) returns (e: UpdateError)
      requires inventory.Valid() && Inv(s) && Touched(s, inventory.View())
      requires s.pins == others + ConfigPins(config) && inventory.pins == s.pins + CommandPins(c)
      requires c == config.(executable := c.executable, arguments := c.arguments, environment := c.environment,
                            workingDirectory := c.workingDirectory)
      modifies this`config, inventory
      ensures Touched(s, inventory.View())
      ensures Valid() && e == if saved then Updated else NotSaved
      ensures if saved then config == c else config == old(config) && inventory.View() == s
    {
      hide InvBut, Touched, ConfigPins, CommandPins;
      var backup := config;
      config := c;
      if !saved {
        config := backup;
        ReleaseCommand(c, s);
        GivenBack(s, inventory.View());
        return NotSaved;
      }
      SwapCommand(others, backup, config);
      ReleaseCommand(backup, s);
      e := Updated;
    }

    /** string_get_acquired_and_locked and the check for the empty string, as
        program_set_command does it: the reference is kept even when the check fails. */
    method GetDirectory(id: nat, ghost s: State) returns (e: UpdateError, p: Pointer)
      requires inventory.Valid() && Touched(s, inventory.View())
      modifies inventory
      ensures inventory.Valid() && Touched(s, inventory.View())
      ensures e == TextError(old(inventory.objects), true, id)
      ensures e == UnknownId || e == InvalidParameter || e == Updated
      ensures if e.UnknownId? then inventory.View() == old(inventory.View())
              else IsTyped(old(inventory.objects), StringKind, id, p)
                   && inventory.pins == old(inventory.pins) + Locked(p)
    {
      hide InvBut, Touched;
      ghost var t := inventory.View();
      var found;
      found, p := inventory.GetStringLocked(id);
      if !found.Success? {
        return UnknownId, p;
      }
      TouchedTransitive(s, t, inventory.View());
      var empty := IsEmpty(p);
      e := if empty then InvalidParameter else Updated;
    }

    method ReleaseCommand(c: Config, ghost s: State)
      requires inventory.Valid() && Touched(s, inventory.View()) && CommandPins(c) <= inventory.pins
      modifies inventory
      ensures inventory.Valid() && Touched(s, inventory.View())
      ensures inventory.pins == old(inventory.pins) - CommandPins(c)
    {
      hide Inv, InvBut, Touched, ThreePins, CommandPins, Locked;
      CommandSplits(c);
      SubtractTwo(inventory.pins, ThreePins(c), Locked(c.workingDirectory));
      ReleaseThree(c, s);
      ReleaseIf(true, c.workingDirectory, s);
    }

    /** The first three parameters of a command, or none of them. */
    method AcquireCommand(executableId: nat, argumentsId: nat, environmentId: nat, ghost s: State)
      returns (e: UpdateError, c: Config)
      requires inventory.Valid() && s == inventory.View()
      modifies inventory
      ensures inventory.Valid() && Touched(s, inventory.View())
      ensures e == First(TextError(s.objects, true, executableId),
                   First(ListError(s.objects, argumentsId), ListError(s.objects, environmentId)))
      ensures c == config.(executable := c.executable, arguments := c.arguments, environment := c.environment)
      ensures if e.Updated? then
                && Alike(s.objects, inventory.objects)
                && inventory.pins == s.pins + ThreePins(c)
                && IsTyped(s.objects, StringKind, executableId, c.executable)
                && IsTyped(s.objects, ListKind, argumentsId, c.arguments)
                && IsTyped(s.objects, ListKind, environmentId, c.environment)
              else inventory.View() == s
    {
      hide Inv, InvBut, Touched, TextError, ListError, IsTyped, Alike, Locked;
      c := config;
      TouchedNothing(s);
      var executable, arguments, environment;
      e, executable := GetText(true, executableId, s);
      if !e.Updated? {
        return;
      }
      AlikeErrors(s.objects, inventory.objects);
      ghost var t := inventory.View();
      e, arguments, environment := AcquireLists(argumentsId, environmentId, s);
      if !e.Updated? {
        ReleaseIf(true, executable, s);
        GivenBack(s, inventory.View());
        return;
      }
      AlikeTransitive(s.objects, t.objects, inventory.objects);
      c := c.(executable := executable, arguments := arguments, environment := environment);
      JoinPins(s.pins, Locked(executable), Locked(arguments), Locked(environment));
    }

    method AcquireLists(argumentsId: nat, environmentId: nat, ghost s: State)
      returns (e: UpdateError, arguments: Pointer, environment: Pointer)
      requires inventory.Valid() && Touched(s, inventory.View())
      modifies inventory
      ensures inventory.Valid() && Touched(s, inventory.View())
      ensures e == First(ListError(old(inventory.objects), argumentsId),
                         ListError(old(inventory.objects), environmentId))
      ensures if e.Updated? then
                && Alike(old(inventory.objects), inventory.objects)
                && inventory.pins == old(inventory.pins) + Locked(arguments) + Locked(environment)
                && IsTyped(old(inventory.objects), ListKind, argumentsId, arguments)
                && IsTyped(old(inventory.objects), ListKind, environmentId, environment)
              else inventory.View() == old(inventory.View())
    {
      hide InvBut, Touched, TextError, ListError, IsTyped, Alike;
      environment := 0;
      ghost var t := inventory.View();
      TouchedNothing(t);
      e, arguments := GetStrings(argumentsId, t);
      if !e.Updated? {
        return;
      }
      AlikeErrors(t.objects, inventory.objects);
      ghost var u := inventory.View();
      e, environment := GetStrings(environmentId, t);
      if !e.Updated? {
        ReleaseIf(true, arguments, t);
        GivenBack(t, inventory.View());
        return;
      }
      AlikeTransitive(t.objects, u.objects, inventory.objects);
      TouchedTransitive(s, t, inventory.View());
    }

    method ReleaseThree(c: Config, ghost s: State)
      requires inventory.Valid() && Touched(s, inventory.View()) && ThreePins(c) <= inventory.pins
      modifies inventory
      ensures inventory.Valid() && Touched(s, inventory.View())
      ensures inventory.pins == old(inventory.pins) - ThreePins(c)
    {
      hide InvBut, Touched;
      SubtractParts(inventory.pins, Locked(c.environment), Locked(c.arguments), Locked(c.executable));
      assert ThreePins(c) == Locked(c.environment) + Locked(c.arguments) + Locked(c.executable);
      ReleaseIf(true, c.environment, s);
      ReleaseIf(true, c.arguments, s);
      ReleaseIf(true, c.executable, s);
    }

    /** program_set_stdio_redirection. The check meant for stderr looks at stdout again, so
        every known stderr redirection is accepted. */
    method SetStdioRedirection(stdin: Option<Redirection>, stdinId: nat, stdout: Option<Redirection>, stdoutId: nat,
                               stderr: Option<Redirection>, stderrId: nat, saved: bool)
      returns (e: UpdateError)
      requires Valid()
      modifies this`config, inventory
      ensures Valid() && Touched(old(inventory.View()), inventory.View())
      ensures e == if purged then Purged
                   else if stdin.None? || stdin.value in {IndividualLog, ContinuousLog, Stdout} then InvalidParameter
                   else if stdout.None? || stdout.value in {Pipe, Stdout} || stderr.None? then InvalidParameter
                   else if stdin.value.File? && !Named(old(inventory.objects), StringKind, stdinId) then UnknownId
                   else if stdin.value.File? && Blank(old(inventory.objects), stdinId) then InvalidParameter
                   else if stdout.value.File? && !Named(old(inventory.objects), StringKind, stdoutId) then UnknownId
                   else if stdout.value.File? && Blank(old(inventory.objects), stdoutId) then InvalidParameter
                   else if stderr.value.File? && !Named(old(inventory.objects), StringKind, stderrId) then UnknownId
                   else if stderr.value.File? && Blank(old(inventory.objects), stderrId) then InvalidParameter
                   else if !saved then NotSaved
                   else Updated
      ensures if e.Updated? then
                && config == old(config).(stdin := stdin.value, stdinFileName := config.stdinFileName,
                                          stdout := stdout.value, stdoutFileName := config.stdoutFileName,
                                          stderr := stderr.value, stderrFileName := config.stderrFileName)
                && (stdin.value.File? ==> IsTyped(old(inventory.objects), StringKind, stdinId, config.stdinFileName))
                && (stdout.value.File? ==> IsTyped(old(inventory.objects), StringKind, stdoutId, config.stdoutFileName))
                && (stderr.value.File? ==> IsTyped(old(inventory.objects), StringKind, stderrId, config.stderrFileName))
              else config == old(config) && inventory.View() == old(inventory.View())
    {
      hide Inv, InvBut, Touched, ConfigPins, StdioPins, Named, Blank, IsTyped;
      ghost var s := inventory.View();
      TouchedNothing(s);
      if purged {
        return Purged;
      }
      if stdin.None? || !StdinOk(stdin.value) {
        return InvalidParameter;
      }
      if stdout.None? || !StdoutOk(stdout.value) {
        return InvalidParameter;
      }
      if stderr.None? || stdout.value.Pipe? {
        return InvalidParameter;
      }
      var c := config;
      e, c := AcquireStdio(stdin.value, stdinId, stdout.value, stdoutId, stderr.value, stderrId, s);
      if !e.Updated? {
        return;
      }
      var backup := config;
      config := c;
      if !saved {
        config := backup;
        ReleaseStdio(c, s);
        GivenBack(s, inventory.View());
        return NotSaved;
      }
      SwapStdio(others, backup, config);
      ReleaseStdio(backup, s);
      e := Updated;
    }

    /** Acquires the file names of all streams that are redirected to files, or none. */
    method AcquireStdio(stdin: Redirection, stdinId: nat, stdout: Redirection, stdoutId: nat,
                        stderr: Redirection, stderrId: nat, ghost s: State)
      returns (e: UpdateError, c: Config)
      requires inventory.Valid() && s == inventory.View()
      modifies inventory
      ensures inventory.Valid() && Touched(s, inventory.View())
      ensures e == First(TextError(s.objects, stdin.File?, stdinId),
                   First(TextError(s.objects, stdout.File?, stdoutId),
                   TextError(s.objects, stderr.File?, stderrId)))
      ensures c == config.(stdin := stdin, stdinFileName := c.stdinFileName,
                           stdout := stdout, stdoutFileName := c.stdoutFileName,
                           stderr := stderr, stderrFileName := c.stderrFileName)
      ensures if e.Updated? then
                && inventory.pins == s.pins + StdioPins(c)
                && (stdin.File? ==> IsTyped(s.objects, StringKind, stdinId, c.stdinFileName))
                && (stdout.File? ==> IsTyped(s.objects, StringKind, stdoutId, c.stdoutFileName))
                && (stderr.File? ==> IsTyped(s.objects, StringKind, stderrId, c.stderrFileName))
              else inventory.View() == s
    {
      hide Inv, InvBut, Touched, LockedIf, TextError, IsTyped, Alike;
      c := config.(stdin := stdin, stdout := stdout, stderr := stderr);
      TouchedNothing(s);
      var stdinName, stdoutName, stderrName;
      e, stdinName := GetText(stdin.File?, stdinId, s);
      if !e.Updated? {
        return;
      }
      AlikeErrors(s.objects, inventory.objects);
      e, stdoutName, stderrName := AcquireOutputs(stdout, stdoutId, stderr, stderrId, s);
      if !e.Updated? {
        ReleaseIf(stdin.File?, stdinName, s);
        GivenBack(s, inventory.View());
        return;
      }
      c := c.(stdinFileName := stdinName, stdoutFileName := stdoutName, stderrFileName := stderrName);
      JoinPins(s.pins, LockedIf(stdin.File?, stdinName), LockedIf(stdout.File?, stdoutName),
               LockedIf(stderr.File?, stderrName));
    }

    lemma JoinPins(pins: multiset<Hold>, a: multiset<Hold>, b: multiset<Hold>, c: multiset<Hold>)
      ensures pins + a + b + c == pins + (a + b + c)
    {
    }

    method AcquireOutputs(stdout: Redirection, stdoutId: nat, stderr: Redirection, stderrId: nat, ghost s: State)
      returns (e: UpdateError, stdoutName: Pointer, stderrName: Pointer)
      requires inventory.Valid() && Touched(s, inventory.View())
      modifies inventory
      ensures inventory.Valid() && Touched(s, inventory.View())
      ensures e == First(TextError(old(inventory.objects), stdout.File?, stdoutId),
                   TextError(old(inventory.objects), stderr.File?, stderrId))
      ensures if e.Updated? then
                && inventory.pins ==
                  old(inventory.pins) + LockedIf(stdout.File?, stdoutName) + LockedIf(stderr.File?, stderrName)
                && (stdout.File? ==> IsTyped(old(inventory.objects), StringKind, stdoutId, stdoutName))
                && (stderr.File? ==> IsTyped(old(inventory.objects), StringKind, stderrId, stderrName))
              else inventory.View() == old(inventory.View())
    {
      hide InvBut, Touched, LockedIf, TextError, IsTyped, Alike;
      stderrName := 0;
      ghost var t := inventory.View();
      TouchedNothing(t);
      e, stdoutName := GetText(stdout.File?, stdoutId, t);
      if !e.Updated? {
        return;
      }
      AlikeErrors(t.objects, inventory.objects);
      e, stderrName := GetText(stderr.File?, stderrId, t);
      if !e.Updated? {
        ReleaseIf(stdout.File?, stdoutName, t);
        GivenBack(t, inventory.View());
        return;
      }
      TouchedTransitive(s, t, inventory.View());
    }

    method ReleaseStdio(c: Config, ghost s: State)
      requires inventory.Valid() && Touched(s, inventory.View()) && StdioPins(c) <= inventory.pins
      modifies inventory
      ensures inventory.Valid() && Touched(s, inventory.View())
      ensures inventory.pins == old(inventory.pins) - StdioPins(c)
    {
      hide InvBut, Touched, LockedIf;
      SubtractParts(inventory.pins, LockedIf(c.stdin.File?, c.stdinFileName),
                    LockedIf(c.stdout.File?, c.stdoutFileName), LockedIf(c.stderr.File?, c.stderrFileName));
      ReleaseIf(c.stdin.File?, c.stdinFileName, s);
      ReleaseIf(c.stdout.File?, c.stdoutFileName, s);
      ReleaseIf(c.stderr.File?, c.stderrFileName, s);
    }

    // ----- custom options -----

    ghost predicate NamesDistinct()
      reads this, inventory
    {
      NamesDiffer(inventory.objects, config.customOptions)
    }

    /** program_find_custom_option, ignoring case. */
    method FindOption(name: Pointer) returns (found: bool, index: nat)
      requires inventory.Valid() && OptionPins(config.customOptions) <= inventory.pins && name in inventory.objects
      ensures found ==> IsFirst(inventory.objects, config.customOptions, index, Folded(inventory.objects[name].text))
      ensures found <==> ValueFor(inventory.objects, config.customOptions, Folded(inventory.objects[name].text)).Some?
    {
      hide InvBut, ConfigPins, OptionPins, Touched;
      TouchedNothing(inventory.View());
      NamesStay(inventory.View(), inventory.View(), config.customOptions);
      ghost var key := Folded(inventory.objects[name].text);
      ValueIfAny(inventory.objects, config.customOptions, key);
      index := 0;
      while index < |config.customOptions|
        invariant index <= |config.customOptions|
        invariant forall i: nat | i < index :: Key(inventory.objects, config.customOptions[i]) != key
      {
        if Folded(inventory.objects[config.customOptions[index].name].text) == Folded(inventory.objects[name].text) {
          ValueIfAny(inventory.objects, config.customOptions[..index], key);
          return true, index;
        }
        index := index + 1;
      }
      found := false;
    }

    /** program_set_custom_option_value. */
    method SetCustomOptionValue(nameId: nat, valueId: nat, appended: bool, saved: bool) returns (e: UpdateError)
      requires Valid()
      modifies this`config, inventory
      ensures Valid() && (old(NamesDistinct()) ==> NamesDistinct())
      ensures Touched(old(inventory.View()), inventory.View())
      ensures e == if purged then Purged
                   else if !Named(old(inventory.objects), StringKind, nameId) then UnknownId
                   else if !Named(old(inventory.objects), StringKind, valueId) then UnknownId
                   else if !appended && !NamesOne(old(inventory.objects), old(config.customOptions), nameId)
                   then NoMemory
                   else if !saved then NotSaved
                   else Updated
      ensures config == old(config).(customOptions := config.customOptions)
      ensures if e.Updated? then
                forall name, value | IsTyped(old(inventory.objects), StringKind, nameId, name)
                  && IsTyped(old(inventory.objects), StringKind, valueId, value) ::
                  && OnlyOption(old(inventory.objects), old(config.customOptions), inventory.objects,
                                config.customOptions, Folded(old(inventory.objects)[name].text), Some(value))
                  && InPlace(old(inventory.objects), old(config.customOptions), config.customOptions, name, value)
              else config == old(config) && inventory.View() == old(inventory.View())
    {
      hide InvBut, Touched, ConfigPins, NamesDiffer, ValueFor, OnlyOption, InPlace;
      ghost var s := inventory.View();
      TouchedNothing(s);
      if purged {
        return Purged;
      }
      var found, name := inventory.GetTyped(StringKind, nameId);
      if !found {
        return UnknownId;
      }
      var known, value := inventory.GetStringLocked(valueId);
      if !known.Success? {
        return UnknownId;
      }
      e := SetOption(name, value, appended, saved, s);
    }

    method SetOption(name: Pointer, value: Pointer, appended: bool, saved: bool, ghost s: State)
      returns (e: UpdateError)
      requires inventory.Valid() && Inv(s) && Touched(s, inventory.View()) && Alike(s.objects, inventory.objects)
      requires s.pins == others + ConfigPins(config) && inventory.pins == s.pins + Locked(value)
      requires name in s.objects && s.objects[name].kind.StringKind?
      modifies this`config, inventory
      ensures Valid() && Touched(s, inventory.View())
      ensures NamesDiffer(s.objects, old(config.customOptions)) ==> NamesDistinct()
      ensures e == if !appended && ValueFor(s.objects, old(config.customOptions), Folded(s.objects[name].text)).None?
                   then NoMemory
                   else if !saved then NotSaved else Updated
      ensures config == old(config).(customOptions := config.customOptions)
      ensures if e.Updated? then
                && OnlyOption(s.objects, old(config.customOptions), inventory.objects, config.customOptions,
                              Folded(s.objects[name].text), Some(value))
                && InPlace(s.objects, old(config.customOptions), config.customOptions, name, value)
              else config == old(config) && inventory.View() == s
    {
      hide InvBut, Touched, ConfigPins, OptionPins, NamesDiffer, ValueFor, OnlyOption;
      OptionPinsWithin(others, config);
      NamesStay(s, inventory.View(), config.customOptions);
      var found, index := FindOption(name);
      if found {
        e := ReplaceOption(index, value, saved, s, Folded(s.objects[name].text));
      } else {
        e := AppendOption(name, value, appended, saved, s);
      }
    }

    /** A new option; it keeps a reference to its name, too. */
    method AppendOption(name: Pointer, value: Pointer, appended: bool, saved: bool, ghost s: State)
      returns (e: UpdateError)
      requires inventory.Valid() && Inv(s) && Touched(s, inventory.View()) && name in inventory.objects
      requires s.pins == others + ConfigPins(config) && inventory.pins == s.pins + Locked(value)
      requires name in s.objects && s.objects[name].kind.StringKind?
      requires ValueFor(s.objects, config.customOptions, Folded(s.objects[name].text)).None?
      modifies this`config, inventory
      ensures Valid() && Touched(s, inventory.View())
      ensures NamesDiffer(s.objects, old(config.customOptions)) ==> NamesDistinct()
      ensures e == if !appended then NoMemory else if !saved then NotSaved else Updated
      ensures e.Updated? ==> config.customOptions == old(config.customOptions) + [CustomOption(name, value)]
      ensures config == old(config).(customOptions := config.customOptions)
      ensures if e.Updated? then
                OnlyOption(s.objects, old(config.customOptions), inventory.objects, config.customOptions,
                           Folded(s.objects[name].text), Some(value))
              else config == old(config) && inventory.View() == s
    {
      hide InvBut, Touched, ConfigPins, OptionPins, NamesDiffer, ValueFor, OnlyOption, Locked;
      var before, o := config, CustomOption(name, value);
      if !appended {
        ReleaseIf(true, value, s);
        GivenBack(s, inventory.View());
        return NoMemory;
      }
      AcquireName(name, s);
      config := config.(customOptions := config.customOptions + [o]);
      if !saved {
        config := config.(customOptions := config.customOptions[..|config.customOptions| - 1]);
        assert config == before;
        ReleaseBoth(name, value, s);
        GivenBack(s, inventory.View());
        return NotSaved;
      }
      PinsAfterAppend(others, before, o);
      OptionPinsWithin(others, config);
      AppendingTo(s, inventory.View(), before.customOptions, o);
      e := Updated;
    }

    method AcquireName(name: Pointer, ghost s: State)
      requires inventory.Valid() && Touched(s, inventory.View()) && name in inventory.objects
      requires s.objects[name].kind.StringKind?
      modifies inventory
      ensures inventory.Valid() && Touched(s, inventory.View()) && inventory.pins == old(inventory.pins) + Locked(name)
    {
      hide InvBut;
      ghost var t := inventory.View();
      inventory.Acquire(Hold(name, true));
      hide Touched;
      BumpTouches(t, inventory.View(), Hold(name, true));
      TouchedTransitive(s, t, inventory.View());
    }

    method ReleaseBoth(name: Pointer, value: Pointer, ghost s: State)
      requires inventory.Valid() && Touched(s, inventory.View())
      requires Locked(name) + Locked(value) <= inventory.pins
      modifies inventory
      ensures inventory.Valid() && Touched(s, inventory.View())
      ensures inventory.pins == old(inventory.pins) - (Locked(name) + Locked(value))
    {
      hide InvBut, Touched;
      SubtractParts(inventory.pins, Locked(name), Locked(value), multiset{});
      ReleaseIf(true, name, s);
      ReleaseIf(true, value, s);
    }

    /** Another value for an option that exists; the old one is given back. */
    method ReplaceOption(index: nat, value: Pointer, saved: bool, ghost s: State, ghost key: string)
      returns (e: UpdateError)
      requires inventory.Valid() && Inv(s) && Touched(s, inventory.View())
      requires s.pins == others + ConfigPins(config) && inventory.pins == s.pins + Locked(value)
      requires IsFirst(s.objects, config.customOptions, index, key)
      modifies this`config, inventory
      ensures Valid() && Touched(s, inventory.View())
      ensures NamesDiffer(s.objects, old(config.customOptions)) ==> NamesDistinct()
      ensures e == if !saved then NotSaved else Updated
      ensures e.Updated? ==> config.customOptions == ReplacedOption(old(config.customOptions), index, value)
      ensures config == old(config).(customOptions := config.customOptions)
      ensures if e.Updated? then
                OnlyOption(s.objects, old(config.customOptions), inventory.objects, config.customOptions, key,
                           Some(value))
              else config == old(config) && inventory.View() == s
    {
      hide InvBut, Touched, ConfigPins, OptionPins, NamesDiffer, ValueFor, OnlyOption, Locked, ReplacedOption, Key;
      var before, option := config, config.customOptions[index];
      config := config.(customOptions := ReplacedOption(config.customOptions, index, value));
      if !saved {
        RestoredOption(before.customOptions, index, value);
        config := config.(customOptions := config.customOptions[index := option]);
        ReleaseIf(true, value, s);
        GivenBack(s, inventory.View());
        return NotSaved;
      }
      PinsAfterReplace(others, before, index, value);
      ReleaseIf(true, option.value, s);
      OptionPinsWithin(others, config);
      ReplacingIn(s, inventory.View(), before.customOptions, index, value, key);
      e := Updated;
    }

    /** program_remove_custom_option. When saving fails the option comes back, but as the last
        one, and not at all when there is no memory for it: the configuration is the old one
        exactly if the option was the last one, its meaning exactly if there was memory. */
    method RemoveCustomOption(nameId: nat, appended: bool, saved: bool) returns (e: UpdateError)
      requires Valid()
      modifies this`config, this`others, inventory
      ensures Valid() && (old(NamesDistinct()) ==> NamesDistinct())
      ensures Touched(old(inventory.View()), inventory.View())
      ensures e == if purged then Purged
                   else if !Named(old(inventory.objects), StringKind, nameId) then UnknownId
                   else if !NamesOne(old(inventory.objects), old(config.customOptions), nameId) then DoesNotExist
                   else if !saved then NotSaved
                   else Updated
      ensures config == old(config).(customOptions := config.customOptions)
      ensures !e.Updated? ==> inventory.View() == old(inventory.View())
      ensures e.Purged? || e.UnknownId? || e.DoesNotExist? ==> config == old(config)
      ensures e.Updated? || e.NotSaved? ==>
                TakenOut(old(inventory.objects), old(config.customOptions), inventory.objects, config.customOptions,
                         nameId, e, appended, old(others), others)
    {
      hide InvBut, Touched, ConfigPins, OptionPins, ValueFor, Dropped;
      ghost var s := inventory.View();
      TouchedNothing(s);
      if purged {
        return Purged;
      }
      var found, name := inventory.GetTyped(StringKind, nameId);
      if !found {
        return UnknownId;
      }
      var index;
      OptionPinsWithin(others, config);
      found, index := FindOption(name);
      if !found {
        return DoesNotExist;
      }
      ghost var before := config.customOptions;
      e := DropOption(index, appended, saved, s, Folded(s.objects[name].text));
      forall x, i: nat | IsTyped(s.objects, StringKind, nameId, x)
                         && IsFirst(s.objects, before, i, Folded(s.objects[x].text))
        ensures i == index
      {
        assert x == name;
        FirstIsUnique(s.objects, before, i, index, Folded(s.objects[x].text));
      }
    }

    method DropOption(index: nat, appended: bool, saved: bool, ghost s: State, ghost key: string)
      returns (e: UpdateError)
      requires Valid() && s == inventory.View() && IsFirst(s.objects, config.customOptions, index, key)
      modifies this`config, this`others, inventory
      ensures Valid() && Touched(s, inventory.View())
      ensures NamesDiffer(s.objects, old(config.customOptions)) ==> NamesDistinct()
      ensures e == if !saved then NotSaved else Updated
      ensures config == old(config).(customOptions := config.customOptions)
      ensures e.NotSaved? ==> inventory.View() == s
      ensures Dropped(s.objects, old(config.customOptions), inventory.objects, config.customOptions, index, e, appended)
      ensures others == old(others) + LostPins(old(config.customOptions)[index], e, appended)
    {
      hide InvBut, Touched, ConfigPins, OptionPins, NamesDiffer, ValueFor, WithoutOption, OnlyOption, SameOptions,
           Locked;
      TouchedNothing(s);
      var before, option := config, config.customOptions[index];
      config := config.(customOptions := WithoutOption(config.customOptions, index));
      PinsWithout(before, index);
      if !saved {
        PutBack(before, index, appended, s, key);
        return NotSaved;
      }
      PinsWithoutOption(inventory.pins, others + ConfigPins(config), option);
      ReleaseBoth(option.name, option.value, s);
      OptionPinsWithin(others, config);
      RemovingFrom(s, inventory.View(), before.customOptions, index, key);
      e := Updated;
    }

    /** The option is appended again if there is memory; otherwise its references stay taken. */
    method PutBack(before: Config, index: nat, appended: bool, ghost s: State, ghost key: string)
      requires inventory.Valid() && s == inventory.View() && IsFirst(s.objects, before.customOptions, index, key)
      requires config == before.(customOptions := WithoutOption(before.customOptions, index))
      requires inventory.pins == others + ConfigPins(before)
      modifies this`config, this`others
      ensures Valid() && config == before.(customOptions := config.customOptions)
      ensures NamesDiffer(s.objects, before.customOptions) ==> NamesDistinct()
      ensures Dropped(s.objects, before.customOptions, s.objects, config.customOptions, index, NotSaved, appended)
      ensures others == old(others) + LostPins(before.customOptions[index], NotSaved, appended)
    {
      hide InvBut, Touched, ConfigPins, OptionPins, NamesDiffer, ValueFor, WithoutOption, Dropped, Locked;
      var option := before.customOptions[index];
      ghost var taken := Locked(option.name) + Locked(option.value);
      PinsWithout(before, index);
      MovePart(others, ConfigPins(config), taken);
      if appended {
        config := config.(customOptions := config.customOptions + [option]);
        PinsAfterReappend(before, index);
        NotDropped(s.objects, before.customOptions, config.customOptions, index, key, true);
      } else {
        others := others + taken;
        NotDropped(s.objects, before.customOptions, config.customOptions, index, key, false);
      }
    }
  }
}
