/** What the requests of program.c accept, and what of it survives a restart: the configuration of
    a program is looked at through the texts of the strings it names, as program_config_save does. */
module AcceptedConfigs {
  import opened Wrappers
  import opened ObjectGraph
  import opened GraphTheorems
  import opened RequestEffects
  import opened Inventory
  import opened ProgramTypes
  import opened ProgramPins
  import opened ProgramOptions
  import opened ProgramUpdates
  import ConfigNames
  import ConfigFile
  import ConfigLoading
  import IntegerText

  // ----- the texts of a configuration -----

  function TextOf(objects: Objects, p: Pointer): string { if p in objects then objects[p].text else "" }

  /** The texts of the items of a list. */
  function TextsOf(objects: Objects, p: Pointer): (texts: seq<string>)
    ensures |texts| == if p in objects then |objects[p].holds| else 0
  {
    if p in objects then
      seq(|objects[p].holds|, i requires 0 <= i < |objects[p].holds| => TextOf(objects, objects[p].holds[i].target))
    else []
  }

  function TextIf(objects: Objects, used: bool, p: Pointer): Option<string> {
    if used then Some(TextOf(objects, p)) else None
  }

  function OptionsOf(objects: Objects, options: seq<CustomOption>): seq<ConfigFile.Custom> {
    seq(|options|, i requires 0 <= i < |options| =>
          ConfigFile.Custom(TextOf(objects, options[i].name), TextOf(objects, options[i].value)))
  }

  function SettingsOf(objects: Objects, c: Config): ConfigFile.Settings {
    ConfigFile.Settings(
      TextOf(objects, c.executable), TextsOf(objects, c.arguments), TextsOf(objects, c.environment),
      TextOf(objects, c.workingDirectory),
      c.stdin, TextIf(objects, c.stdin.File?, c.stdinFileName),
      c.stdout, TextIf(objects, c.stdout.File?, c.stdoutFileName),
      c.stderr, TextIf(objects, c.stderr.File?, c.stderrFileName),
      c.startMode, c.continueAfterError, c.startInterval, TextIf(objects, c.startMode.Cron?, c.startFields),
      OptionsOf(objects, c.customOptions))
  }

  // ----- what is accepted -----

  ghost predicate IsA(objects: Objects, kind: Kind, p: Pointer) {
    p in objects && objects[p].kind == kind
  }

  ghost predicate ListFits(objects: Objects, p: Pointer) {
    IsA(objects, ListKind, p) && |TextsOf(objects, p)| < ConfigFile.INT32_LIMIT
  }

  ghost predicate NameFits(objects: Objects, p: Pointer) {
    IsA(objects, StringKind, p) && TextOf(objects, p) != ""
  }

  ghost predicate CommandFits(objects: Objects, c: Config) {
    ListFits(objects, c.arguments) && ListFits(objects, c.environment)
  }

  /** The redirections fit stdin and stdout, and file names are not empty; of stderr nothing is
      checked but its file name. */
  ghost predicate StdioFits(objects: Objects, c: Config) {
    && StdinOk(c.stdin) && StdoutOk(c.stdout)
    && (c.stdin.File? ==> NameFits(objects, c.stdinFileName))
    && (c.stdout.File? ==> NameFits(objects, c.stdoutFileName))
    && (c.stderr.File? ==> NameFits(objects, c.stderrFileName))
  }

  ghost predicate ScheduleFits(objects: Objects, c: Config) {
    (c.startMode.Cron? ==> NameFits(objects, c.startFields)) && c.startInterval < ConfigFile.UINT32_LIMIT
  }

  ghost predicate Accepted(objects: Objects, c: Config) {
    CommandFits(objects, c) && StdioFits(objects, c) && ScheduleFits(objects, c)
  }

  lemma AcceptedIsLoadable(objects: Objects, c: Config)
    requires Accepted(objects, c)
    ensures ConfigFile.WellFormed(SettingsOf(objects, c))
    ensures ConfigLoading.Loadable(SettingsOf(objects, c)) <==> !c.stderr.Pipe?
    ensures ConfigFile.DistinctNames(OptionsOf(objects, c.customOptions)) <==> NamesDiffer(objects, c.customOptions)
  {
    var options := c.customOptions;
    forall i, j | 0 <= i < j < |options|
      ensures ConfigNames.SameName(OptionsOf(objects, options)[i].name, OptionsOf(objects, options)[j].name)
              <==> Key(objects, options[i]) == Key(objects, options[j])
    {
      assert Folded("") == "";
    }
  }

  /** Whatever was accepted: it is loaded as it was saved if and only if stderr is not a pipe and
      the names of the custom options are different. */
  lemma RestartKeeps(objects: Objects, c: Config, lines: seq<ConfigFile.Line>)
    requires Accepted(objects, c) && ConfigFile.Says(lines, SettingsOf(objects, c))
    ensures ConfigLoading.Loaded(lines) == SettingsOf(objects, c) <==>
              !c.stderr.Pipe? && NamesDiffer(objects, c.customOptions)
  {
    hide ConfigFile.Says, ConfigFile.WellFormed, ConfigFile.DistinctNames, ConfigLoading.Loaded, ConfigLoading.Loadable,
         Accepted, NamesDiffer;
    AcceptedIsLoadable(objects, c);
    ConfigLoading.RoundTrip(lines, SettingsOf(objects, c));
  }

  // ----- named strings are locked -----

  /** What fits keeps fitting while it is pinned: its contents cannot change. */
  ghost predicate FitsAsBefore(s: State, t: State, p: Pointer) {
    && (NameFits(s.objects, p) ==> NameFits(t.objects, p))
    && (ListFits(s.objects, p) ==> ListFits(t.objects, p))
  }

  lemma PinnedStays(s: State, t: State, p: Pointer)
    requires Touched(s, t) && Inv(t) && Hold(p, true) in t.pins
    ensures FitsAsBefore(s, t, p)
  {
    hide InvBut;
    PinIsLive(t, Hold(p, true));
  }

  lemma LockedStays(s: State, t: State, p: Pointer)
    requires Inv(s) && Inv(t) && Respects(s, t) && Hold(p, true) in s.pins && Hold(p, true) in t.pins
    ensures FitsAsBefore(s, t, p)
  {
    hide InvBut;
    PinIsLive(s, Hold(p, true));
    PinIsLive(t, Hold(p, true));
    ObjectConservation(s, p);
    assert s.objects[p].lock > 0;
  }

  lemma ShortListsStay(s: State, t: State)
    requires Touched(s, t) && ShortLists(s.objects)
    ensures ShortLists(t.objects)
  {
  }

  /** Everything a configuration names is pinned. */
  lemma NamedIsPinned(pins: multiset<Hold>, c: Config)
    requires ConfigPins(c) <= pins
    ensures Hold(c.arguments, true) in pins && Hold(c.environment, true) in pins
    ensures Hold(c.executable, true) in pins && Hold(c.workingDirectory, true) in pins
    ensures c.stdin.File? ==> Hold(c.stdinFileName, true) in pins
    ensures c.stdout.File? ==> Hold(c.stdoutFileName, true) in pins
    ensures c.stderr.File? ==> Hold(c.stderrFileName, true) in pins
    ensures c.startMode.Cron? ==> Hold(c.startFields, true) in pins
  {
    hide OptionPins;
    assert Hold(c.arguments, true) in CommandPins(c) && Hold(c.environment, true) in CommandPins(c);
    assert Hold(c.executable, true) in CommandPins(c) && Hold(c.workingDirectory, true) in CommandPins(c);
    assert c.stdin.File? ==> Hold(c.stdinFileName, true) in StdioPins(c);
    assert c.stdout.File? ==> Hold(c.stdoutFileName, true) in StdioPins(c);
    assert c.stderr.File? ==> Hold(c.stderrFileName, true) in StdioPins(c);
    assert c.startMode.Cron? ==> Hold(c.startFields, true) in SchedulePins(c);
    hide CommandPins, StdioPins, SchedulePins;
    assert CommandPins(c) <= ConfigPins(c) && StdioPins(c) <= ConfigPins(c) && SchedulePins(c) <= ConfigPins(c);
  }

  /** A configuration that was accepted stays so while its strings are locked, whatever else
      happens to the inventory. */
  lemma AcceptedStays(s: State, t: State, c: Config)
    requires Accepted(s.objects, c) && Inv(s) && Inv(t) && Respects(s, t)
    requires ConfigPins(c) <= s.pins && ConfigPins(c) <= t.pins
    ensures Accepted(t.objects, c)
  {
    hide InvBut, ConfigPins, Respects, FitsAsBefore, NameFits, ListFits;
    NamedIsPinned(s.pins, c);
    NamedIsPinned(t.pins, c);
    LockedStays(s, t, c.arguments);
    LockedStays(s, t, c.environment);
    if c.stdin.File? { LockedStays(s, t, c.stdinFileName); }
    if c.stdout.File? { LockedStays(s, t, c.stdoutFileName); }
    if c.stderr.File? { LockedStays(s, t, c.stderrFileName); }
    if c.startMode.Cron? { LockedStays(s, t, c.startFields); }
    AsBefore(s, t, c);
  }

  /** So it stays while requests of programs touch nothing but counts. */
  lemma TouchedStays(s: State, t: State, c: Config)
    requires Touched(s, t) && Inv(t) && ConfigPins(c) <= t.pins
    ensures CommandFits(s.objects, c) ==> CommandFits(t.objects, c)
    ensures StdioFits(s.objects, c) ==> StdioFits(t.objects, c)
    ensures ScheduleFits(s.objects, c) ==> ScheduleFits(t.objects, c)
  {
    hide InvBut, ConfigPins, Touched, NameFits, ListFits, FitsAsBefore;
    NamedIsPinned(t.pins, c);
    PinnedStays(s, t, c.arguments);
    PinnedStays(s, t, c.environment);
    if c.stdin.File? { PinnedStays(s, t, c.stdinFileName); }
    if c.stdout.File? { PinnedStays(s, t, c.stdoutFileName); }
    if c.stderr.File? { PinnedStays(s, t, c.stderrFileName); }
    if c.startMode.Cron? { PinnedStays(s, t, c.startFields); }
    AsBefore(s, t, c);
  }

  lemma AsBefore(s: State, t: State, c: Config)
    requires FitsAsBefore(s, t, c.arguments) && FitsAsBefore(s, t, c.environment)
    requires c.stdin.File? ==> FitsAsBefore(s, t, c.stdinFileName)
    requires c.stdout.File? ==> FitsAsBefore(s, t, c.stdoutFileName)
    requires c.stderr.File? ==> FitsAsBefore(s, t, c.stderrFileName)
    requires c.startMode.Cron? ==> FitsAsBefore(s, t, c.startFields)
    ensures CommandFits(s.objects, c) ==> CommandFits(t.objects, c)
    ensures StdioFits(s.objects, c) ==> StdioFits(t.objects, c)
    ensures ScheduleFits(s.objects, c) ==> ScheduleFits(t.objects, c)
  {
    hide NameFits, ListFits;
  }

  // ----- requests -----

  datatype ProgramRequest =
    | SetCommand(executableId: nat, argumentsId: nat, environmentId: nat, workingDirectoryId: nat, saved: bool)
    | SetStdio(stdin: Option<Redirection>, stdinId: nat, stdout: Option<Redirection>, stdoutId: nat,
               stderr: Option<Redirection>, stderrId: nat, saved: bool)
    | SetSchedule(mode: Option<StartMode>, continueAfterError: bool, startInterval: nat, startFieldsId: nat,
                  saved: bool)
    | SetOption(nameId: nat, valueId: nat, appended: bool, saved: bool)
    | RemoveOption(nameId: nat, appended: bool, saved: bool)
  {
    /** The interval is a number of 32 bits. */
    predicate Typed() { SetSchedule? ==> startInterval < ConfigFile.UINT32_LIMIT }
  }

  /** The configuration is one that the requests accept. */
  ghost predicate InOrder(program: Program)
    reads program, program.inventory
  {
    program.Valid() && Accepted(program.inventory.objects, program.config) && ShortLists(program.inventory.objects)
  }

  /** A name that was checked is not empty. */
  lemma CheckedFits(objects: Objects, id: nat, p: Pointer)
    requires !Blank(objects, id) && IsTyped(objects, StringKind, id, p)
    ensures NameFits(objects, p)
  {
  }

  lemma ShortListFits(objects: Objects, id: nat, p: Pointer)
    requires ShortLists(objects) && IsTyped(objects, ListKind, id, p)
    ensures ListFits(objects, p)
  {
  }

  /** Any request, whether it succeeds or not. */
  method Perform(program: Program, r: ProgramRequest) returns (e: UpdateError)
    requires InOrder(program) && r.Typed()
    modifies program`config, program`others, program.inventory
    ensures InOrder(program)
  {
    hide InvBut, Touched, ConfigPins, CommandFits, StdioFits, ScheduleFits, Named, Blank, Mixed, IsTyped, ShortLists;
    ghost var s, before := program.inventory.View(), program.config;
    match r {
      case SetCommand(executableId, argumentsId, environmentId, workingDirectoryId, saved) =>
        e := program.SetCommand(executableId, argumentsId, environmentId, workingDirectoryId, saved);
        NewCommandFits(s.objects, before, program.config, argumentsId, environmentId, e);
      case SetStdio(stdin, stdinId, stdout, stdoutId, stderr, stderrId, saved) =>
        e := PerformStdio(program, stdin, stdinId, stdout, stdoutId, stderr, stderrId, saved);
        return;
      case SetSchedule(mode, continueAfterError, startInterval, startFieldsId, saved) =>
        e := program.SetSchedule(mode, continueAfterError, startInterval, startFieldsId, saved);
        if e.Updated? {
          NewScheduleFits(s.objects, before, program.config, startFieldsId);
        }
      case SetOption(nameId, valueId, appended, saved) =>
        e := program.SetCustomOptionValue(nameId, valueId, appended, saved);
        OptionsDoNotMatter(s.objects, before, program.config);
      case RemoveOption(nameId, appended, saved) =>
        e := program.RemoveCustomOption(nameId, appended, saved);
        OptionsDoNotMatter(s.objects, before, program.config);
    }
    ConfigIsPinned(program);
    TouchedStays(s, program.inventory.View(), program.config);
    ShortListsStay(s, program.inventory.View());
  }

  method PerformStdio(program: Program, stdin: Option<Redirection>, stdinId: nat, stdout: Option<Redirection>,
                      stdoutId: nat, stderr: Option<Redirection>, stderrId: nat, saved: bool)
    returns (e: UpdateError)
    requires InOrder(program)
    modifies program`config, program.inventory
    ensures InOrder(program) && Touched(old(program.inventory.View()), program.inventory.View())
    ensures e == if program.purged then Purged
                 else if stdin.None? || stdin.value in {IndividualLog, ContinuousLog, Stdout} then InvalidParameter
                 else if stdout.None? || stdout.value in {Pipe, Stdout} || stderr.None? then InvalidParameter
                 else if stdin.value.File? && !old(Named(program.inventory.objects, StringKind, stdinId)) then UnknownId
                 else if stdin.value.File? && old(Blank(program.inventory.objects, stdinId)) then InvalidParameter
                 else if stdout.value.File? && !old(Named(program.inventory.objects, StringKind, stdoutId)) then
                   UnknownId
                 else if stdout.value.File? && old(Blank(program.inventory.objects, stdoutId)) then InvalidParameter
                 else if stderr.value.File? && !old(Named(program.inventory.objects, StringKind, stderrId)) then
                   UnknownId
                 else if stderr.value.File? && old(Blank(program.inventory.objects, stderrId)) then InvalidParameter
                 else if !saved then NotSaved
                 else Updated
    ensures e.Updated? ==> program.config.stderr == stderr.value
    ensures program.config.customOptions == old(program.config.customOptions)
  {
    hide InvBut, Touched, ConfigPins, CommandFits, StdioFits, ScheduleFits, Named, Blank, IsTyped, ShortLists;
    ghost var s, before := program.inventory.View(), program.config;
    e := program.SetStdioRedirection(stdin, stdinId, stdout, stdoutId, stderr, stderrId, saved);
    if e.Updated? {
      NewStdioFits(s.objects, before, program.config, stdinId, stdoutId, stderrId);
    }
    ConfigIsPinned(program);
    TouchedStays(s, program.inventory.View(), program.config);
    ShortListsStay(s, program.inventory.View());
  }

  lemma ConfigIsPinned(program: Program)
    requires program.Valid()
    ensures ConfigPins(program.config) <= program.inventory.pins
  {
    hide InvBut, ConfigPins;
  }

  lemma OptionsDoNotMatter(objects: Objects, c: Config, d: Config)
    requires d == c.(customOptions := d.customOptions) && Accepted(objects, c)
    ensures Accepted(objects, d)
  {
  }

  lemma NewCommandFits(objects: Objects, c: Config, d: Config, argumentsId: nat, environmentId: nat, e: UpdateError)
    requires Accepted(objects, c) && ShortLists(objects)
    requires if e.Updated? then
               && d == c.(executable := d.executable, arguments := d.arguments, environment := d.environment,
                          workingDirectory := d.workingDirectory)
               && IsTyped(objects, ListKind, argumentsId, d.arguments)
               && IsTyped(objects, ListKind, environmentId, d.environment)
             else d == c
    ensures Accepted(objects, d)
  {
    hide ListFits, NameFits;
    if e.Updated? {
      ShortListFits(objects, argumentsId, d.arguments);
      ShortListFits(objects, environmentId, d.environment);
    }
  }

  lemma NewStdioFits(objects: Objects, c: Config, d: Config, stdinId: nat, stdoutId: nat, stderrId: nat)
    requires Accepted(objects, c) && StdinOk(d.stdin) && StdoutOk(d.stdout)
    requires d == c.(stdin := d.stdin, stdinFileName := d.stdinFileName, stdout := d.stdout,
                     stdoutFileName := d.stdoutFileName, stderr := d.stderr, stderrFileName := d.stderrFileName)
    requires (d.stdin.File? ==> !Blank(objects, stdinId)) && (d.stdout.File? ==> !Blank(objects, stdoutId))
    requires d.stderr.File? ==> !Blank(objects, stderrId)
    requires d.stdin.File? ==> IsTyped(objects, StringKind, stdinId, d.stdinFileName)
    requires d.stdout.File? ==> IsTyped(objects, StringKind, stdoutId, d.stdoutFileName)
    requires d.stderr.File? ==> IsTyped(objects, StringKind, stderrId, d.stderrFileName)
    ensures Accepted(objects, d)
  {
    hide Blank, IsTyped, NameFits, ListFits;
    if d.stdin.File? { CheckedFits(objects, stdinId, d.stdinFileName); }
    if d.stdout.File? { CheckedFits(objects, stdoutId, d.stdoutFileName); }
    if d.stderr.File? { CheckedFits(objects, stderrId, d.stderrFileName); }
  }

  lemma NewScheduleFits(objects: Objects, c: Config, d: Config, startFieldsId: nat)
    requires Accepted(objects, c) && d.startInterval < ConfigFile.UINT32_LIMIT
    requires d == c.(startMode := d.startMode, continueAfterError := d.continueAfterError,
                     startInterval := d.startInterval, startFields := d.startFields)
    requires d.startMode.Cron? ==> !Blank(objects, startFieldsId)
    requires d.startMode.Cron? ==> IsTyped(objects, StringKind, startFieldsId, d.startFields)
    ensures Accepted(objects, d)
  {
    hide Blank, IsTyped, NameFits, ListFits;
    if d.startMode.Cron? { CheckedFits(objects, startFieldsId, d.startFields); }
  }

  /** What a saved file says are the texts of the objects that the configuration names. */
  lemma CommandIsSaved(s: State, c: Config, lines: seq<ConfigFile.Line>)
    requires Inv(s) && ConfigPins(c) <= s.pins && ConfigFile.Says(lines, SettingsOf(s.objects, c))
    ensures c.executable in s.objects && c.arguments in s.objects
    ensures c.environment in s.objects && c.workingDirectory in s.objects
    ensures ConfigFile.Lookup(lines, "executable") == Some(s.objects[c.executable].text)
    ensures ConfigFile.Lookup(lines, "working_directory") == Some(s.objects[c.workingDirectory].text)
    ensures forall i: nat | i < |s.objects[c.arguments].holds| ::
              && s.objects[c.arguments].holds[i].target in s.objects
              && ConfigFile.Lookup(lines, "arguments.item" + IntegerText.Digits(i, 10))
                 == Some(s.objects[s.objects[c.arguments].holds[i].target].text)
    ensures forall i: nat | i < |s.objects[c.environment].holds| ::
              && s.objects[c.environment].holds[i].target in s.objects
              && ConfigFile.Lookup(lines, "environment.item" + IntegerText.Digits(i, 10))
                 == Some(s.objects[s.objects[c.environment].holds[i].target].text)
  {
    hide InvBut, ConfigPins, ConfigFile.Says, ConfigFile.Lookup, IntegerText.Digits, OptionsOf;
    NamedIsPinned(s.pins, c);
    PinIsLive(s, Hold(c.executable, true));
    PinIsLive(s, Hold(c.workingDirectory, true));
    PinIsLive(s, Hold(c.arguments, true));
    PinIsLive(s, Hold(c.environment, true));
    ConfigFile.FormatOfCommand(lines, SettingsOf(s.objects, c));
    forall i: nat | i < |s.objects[c.arguments].holds|
      ensures s.objects[c.arguments].holds[i].target in s.objects
    {
      ItemIsLive(s, c.arguments, i);
    }
    forall i: nat | i < |s.objects[c.environment].holds|
      ensures s.objects[c.environment].holds[i].target in s.objects
    {
      ItemIsLive(s, c.environment, i);
    }
  }

  lemma StreamsAreSaved(s: State, c: Config, lines: seq<ConfigFile.Line>)
    requires Inv(s) && ConfigPins(c) <= s.pins && ConfigFile.Says(lines, SettingsOf(s.objects, c))
    ensures c.stdin.File? ==> c.stdinFileName in s.objects
                              && ConfigFile.Lookup(lines, "stdin_file_name") == Some(s.objects[c.stdinFileName].text)
    ensures c.stdout.File? ==>
              && c.stdoutFileName in s.objects
              && ConfigFile.Lookup(lines, "stdout_file_name") == Some(s.objects[c.stdoutFileName].text)
    ensures c.stderr.File? ==>
              && c.stderrFileName in s.objects
              && ConfigFile.Lookup(lines, "stderr_file_name") == Some(s.objects[c.stderrFileName].text)
    ensures c.startMode.Cron? ==>
              && c.startFields in s.objects
              && ConfigFile.Lookup(lines, "start_fields") == Some(s.objects[c.startFields].text)
    ensures ConfigFile.Lookup(lines, "stdin_redirection") == Some(ConfigNames.RedirectionName(c.stdin))
    ensures ConfigFile.Lookup(lines, "stdout_redirection") == Some(ConfigNames.RedirectionName(c.stdout))
    ensures ConfigFile.Lookup(lines, "stderr_redirection") == Some(ConfigNames.RedirectionName(c.stderr))
    ensures ConfigFile.Lookup(lines, "start_mode") == Some(ConfigNames.ModeName(c.startMode))
    ensures ConfigFile.Lookup(lines, "start_interval") == Some(IntegerText.Digits(c.startInterval, 10))
    ensures ConfigFile.Lookup(lines, "continue_after_error") == Some(if c.continueAfterError then "true" else "false")
  {
    hide InvBut, ConfigPins, ConfigFile.Says, ConfigFile.Lookup, IntegerText.Digits, OptionsOf, TextsOf;
    NamedIsPinned(s.pins, c);
    if c.stdin.File? { PinIsLive(s, Hold(c.stdinFileName, true)); }
    if c.stdout.File? { PinIsLive(s, Hold(c.stdoutFileName, true)); }
    if c.stderr.File? { PinIsLive(s, Hold(c.stderrFileName, true)); }
    if c.startMode.Cron? { PinIsLive(s, Hold(c.startFields, true)); }
    ConfigFile.FormatOfStreams(lines, SettingsOf(s.objects, c));
    ConfigFile.FormatOfSchedule(lines, SettingsOf(s.objects, c));
  }

  /** Under the name of an option, without regard to case, the file has the value that a lookup in
      the configuration finds, if no two options have one name. */
  lemma OptionIsSaved(s: State, c: Config, lines: seq<ConfigFile.Line>, i: nat)
    requires Inv(s) && ConfigPins(c) <= s.pins && ConfigFile.Says(lines, SettingsOf(s.objects, c))
    requires NamesDiffer(s.objects, c.customOptions) && i < |c.customOptions|
    ensures c.customOptions[i].name in s.objects && c.customOptions[i].value in s.objects
    ensures ConfigFile.Lookup(lines, "custom." + s.objects[c.customOptions[i].name].text)
            == Some(s.objects[c.customOptions[i].value].text)
  {
    hide InvBut, ConfigFile.Says, ConfigFile.Lookup, CommandPins, StdioPins, SchedulePins;
    OptionIsPinned(s.pins, c, i);
    PinIsLive(s, Hold(c.customOptions[i].name, true));
    PinIsLive(s, Hold(c.customOptions[i].value, true));
    var options, name := OptionsOf(s.objects, c.customOptions), s.objects[c.customOptions[i].name].text;
    ConfigFile.FormatOfOptions(lines, SettingsOf(s.objects, c), name);
    forall j | i < j < |options|
      ensures !ConfigNames.SameName(options[j].name, name)
    {
      assert Key(s.objects, c.customOptions[i]) != Key(s.objects, c.customOptions[j]);
      assert Folded("") == "";
    }
    LastIs(options, i, name);
  }

  lemma OptionIsPinned(pins: multiset<Hold>, c: Config, i: nat)
    requires ConfigPins(c) <= pins && i < |c.customOptions|
    ensures Hold(c.customOptions[i].name, true) in pins && Hold(c.customOptions[i].value, true) in pins
  {
    hide CommandPins, StdioPins, SchedulePins, OptionPins;
    OptionPinsAt(c.customOptions, i);
    var o := c.customOptions[i];
    assert Hold(o.name, true) in Locked(o.name) && Hold(o.value, true) in Locked(o.value);
    assert Hold(o.name, true) in OptionPins(c.customOptions) && Hold(o.value, true) in OptionPins(c.customOptions);
  }

  lemma {:induction false} LastIs(options: seq<ConfigFile.Custom>, i: nat, name: string)
    requires i < |options| && ConfigNames.SameName(options[i].name, name)
    requires forall j | i < j < |options| :: !ConfigNames.SameName(options[j].name, name)
    ensures ConfigFile.LastValue(options, name) == Some(options[i].value)
  {
    if i < |options| - 1 {
      LastIs(options[..|options| - 1], i, name);
    }
  }

  /** program_config_save and program_config_load for the configuration of a program: it is what it
      was if and only if stderr is not a pipe and the names of the custom options are different. */
  method Reload(program: Program, file: ConfigFile.ConfFile, memory: nat)
    returns (saved: bool, loaded: ConfigFile.Settings)
    requires InOrder(program)
    modifies file
    ensures saved <==> ConfigFile.Saves(SettingsOf(program.inventory.objects, program.config), memory, true)
    ensures saved ==> ConfigFile.Says(file.lines, SettingsOf(program.inventory.objects, program.config))
    ensures saved ==>
              (loaded == SettingsOf(program.inventory.objects, program.config) <==>
               !program.config.stderr.Pipe? && NamesDiffer(program.inventory.objects, program.config.customOptions))
  {
    hide InvBut, ConfigPins, ShortLists, ConfigFile.Saves, ConfigFile.Says, ConfigLoading.Loaded, NamesDiffer, Accepted;
    var settings := SettingsOf(program.inventory.objects, program.config);
    saved := ConfigFile.Save(file, settings, memory, true);
    loaded := ConfigLoading.Load(file);
    if saved {
      RestartKeeps(program.inventory.objects, program.config, file.lines);
    }
  }

  /** The same after any requests. */
  method Restart(program: Program, requests: seq<ProgramRequest>, file: ConfigFile.ConfFile, memory: nat)
    returns (saved: bool, loaded: ConfigFile.Settings)
    requires InOrder(program) && forall r | r in requests :: r.Typed()
    modifies program`config, program`others, program.inventory, file
    ensures InOrder(program)
    ensures saved <==> ConfigFile.Saves(SettingsOf(program.inventory.objects, program.config), memory, true)
    ensures saved ==>
              (loaded == SettingsOf(program.inventory.objects, program.config) <==>
               !program.config.stderr.Pipe? && NamesDiffer(program.inventory.objects, program.config.customOptions))
  {
    hide InOrder, ConfigFile.Saves, NamesDiffer;
    for i := 0 to |requests|
      invariant InOrder(program)
    {
      var e := Perform(program, requests[i]);
    }
    saved, loaded := Reload(program, file, memory);
  }
}
