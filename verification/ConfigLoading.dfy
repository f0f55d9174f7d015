/** Loading a program configuration from its file, and the round trip with saving it
    (program_config.c). */
module ConfigLoading {
  import opened Wrappers
  import opened ProgramTypes
  import opened IntegerText
  import opened ConfigNames
  import opened ConfigFile

  function TextAt(lines: seq<Line>, f: Field, default: string): string {
    if At(lines, f).Some? then At(lines, f).value else default
  }

  function NumberAt(lines: seq<Line>, f: Field): nat {
    if At(lines, f).Some? && IntegerOf(At(lines, f).value).Some? then IntegerOf(At(lines, f).value).value else 0
  }

  /** A cast to int keeps the low 32 bits; a negative length means no items. */
  function CountOf(n: nat): nat {
    var low := n % UINT32_LIMIT;
    if low >= INT32_LIMIT then 0 else low
  }

  function ItemText(lines: seq<Line>, prefix: string, i: nat): string {
    if ItemAt(lines, prefix, i).Some? then ItemAt(lines, prefix, i).value else ""
  }

  function ListOf(lines: seq<Line>, length: Field, prefix: string): seq<string> {
    seq(CountOf(NumberAt(lines, length)), (i: nat) => ItemText(lines, prefix, i))
  }

  function RedirectionAt(lines: seq<Line>, f: Field): Redirection {
    if At(lines, f).None? then DevNull
    else
      var r := FirstRedirection(REDIRECTIONS, At(lines, f).value);
      if r.Some? then r.value else DevNull
  }

  function ModeAt(lines: seq<Line>): ProgramTypes.StartMode {
    if At(lines, StartMode).None? then Never
    else
      var m := FirstMode(MODES, At(lines, StartMode).value);
      if m.Some? then m.value else Never
  }

  /** A stream is only redirected to a file that has a name. */
  function WithName(r: Redirection, name: string): (Redirection, Option<string>) {
    if !r.File? then (r, None) else if name == "" then (DevNull, None) else (File, Some(name))
  }

  function StdinOf(lines: seq<Line>): (Redirection, Option<string>) {
    var r := RedirectionAt(lines, StdinRedirection);
    WithName(if r.IndividualLog? || r.ContinuousLog? || r.Stdout? then DevNull else r, TextAt(lines, StdinFileName, ""))
  }

  function StdoutOf(lines: seq<Line>): (Redirection, Option<string>) {
    var r := RedirectionAt(lines, StdoutRedirection);
    WithName(if r.Pipe? || r.Stdout? then DevNull else r, TextAt(lines, StdoutFileName, ""))
  }

  function StderrOf(lines: seq<Line>): (Redirection, Option<string>) {
    var r := RedirectionAt(lines, StderrRedirection);
    WithName(if r.Pipe? then DevNull else r, TextAt(lines, StderrFileName, ""))
  }

  function ScheduleOf(lines: seq<Line>): (ProgramTypes.StartMode, Option<string>) {
    var m, fields := ModeAt(lines), TextAt(lines, StartFields, "* * * * *");
    if !m.Cron? then (m, None) else if fields == "" then (Never, None) else (m, Some(fields))
  }

  function BooleanAt(lines: seq<Line>, f: Field): bool {
    At(lines, f).Some? && SameName(At(lines, f).value, "true")
  }

  /** The configuration that any file stands for. */
  function Loaded(lines: seq<Line>): Settings {
    Settings(TextAt(lines, Executable, ""),
             ListOf(lines, ArgumentsLength, ARGUMENTS), ListOf(lines, EnvironmentLength, ENVIRONMENT),
             TextAt(lines, WorkingDirectory, "."),
             StdinOf(lines).0, StdinOf(lines).1, StdoutOf(lines).0, StdoutOf(lines).1, StderrOf(lines).0,
               StderrOf(lines).1,
             ScheduleOf(lines).0, BooleanAt(lines, ContinueAfterError), NumberAt(lines, StartInterval) % UINT32_LIMIT,
             ScheduleOf(lines).1, Customs(lines))
  }

  // ----- what a file stands for, in terms of its lines -----

  /** The option is there, and has this value, without regard to case. */
  predicate Reads(lines: seq<Line>, name: string, value: string) {
    var text := Lookup(lines, name);
    text.Some? && SameName(text.value, value)
  }

  lemma RedirectionReads(lines: seq<Line>, f: Field, r: Redirection)
    requires r != DevNull
    ensures RedirectionAt(lines, f) == r <==> Reads(lines, FieldName(f), RedirectionName(r))
  {
    hide FirstRedirection, SameName, RedirectionName, FieldName, Lookup;
    if At(lines, f).Some? {
      RedirectionRead(REDIRECTIONS, At(lines, f).value, r);
    }
  }

  lemma StreamReads(lines: seq<Line>, f: Field)
    ensures RedirectionAt(lines, f) == Pipe <==> Reads(lines, FieldName(f), "pipe")
    ensures RedirectionAt(lines, f) == File <==> Reads(lines, FieldName(f), "file")
    ensures RedirectionAt(lines, f) == IndividualLog <==> Reads(lines, FieldName(f), "individual_log")
    ensures RedirectionAt(lines, f) == ContinuousLog <==> Reads(lines, FieldName(f), "continuous_log")
    ensures RedirectionAt(lines, f) == Stdout <==> Reads(lines, FieldName(f), "stdout")
  {
    hide RedirectionAt, Reads, FieldName;
    RedirectionReads(lines, f, Pipe);
    RedirectionReads(lines, f, File);
    RedirectionReads(lines, f, IndividualLog);
    RedirectionReads(lines, f, ContinuousLog);
    RedirectionReads(lines, f, Stdout);
  }

  lemma StdinLoaded(lines: seq<Line>)
    ensures var c := Loaded(lines);
            && c.stdin in {DevNull, Pipe, File}
            && (c.stdin.Pipe? <==> Reads(lines, "stdin_redirection", "pipe"))
            && (c.stdin.File? <==>
                Reads(lines, "stdin_redirection", "file") && Lookup(lines, "stdin_file_name") !in {None, Some("")})
            && c.stdinFileName == (if c.stdin.File? then Lookup(lines, "stdin_file_name") else None)
  {
    hide RedirectionAt, Lookup, Reads, ListOf, NumberAt, BooleanAt, Customs, StdoutOf, StderrOf, ScheduleOf;
    StreamReads(lines, StdinRedirection);
  }

  lemma StdoutLoaded(lines: seq<Line>)
    ensures var c := Loaded(lines);
            && c.stdout in {DevNull, File, IndividualLog, ContinuousLog}
            && (c.stdout.IndividualLog? <==> Reads(lines, "stdout_redirection", "individual_log"))
            && (c.stdout.ContinuousLog? <==> Reads(lines, "stdout_redirection", "continuous_log"))
            && (c.stdout.File? <==>
                Reads(lines, "stdout_redirection", "file") && Lookup(lines, "stdout_file_name") !in {None, Some("")})
            && c.stdoutFileName == (if c.stdout.File? then Lookup(lines, "stdout_file_name") else None)
  {
    hide RedirectionAt, Lookup, Reads, ListOf, NumberAt, BooleanAt, Customs, StdinOf, StderrOf, ScheduleOf;
    StreamReads(lines, StdoutRedirection);
  }

  lemma StderrLoaded(lines: seq<Line>)
    ensures var c := Loaded(lines);
            && c.stderr in {DevNull, File, IndividualLog, ContinuousLog, Stdout}
            && (c.stderr.IndividualLog? <==> Reads(lines, "stderr_redirection", "individual_log"))
            && (c.stderr.ContinuousLog? <==> Reads(lines, "stderr_redirection", "continuous_log"))
            && (c.stderr.Stdout? <==> Reads(lines, "stderr_redirection", "stdout"))
            && (c.stderr.File? <==>
                Reads(lines, "stderr_redirection", "file") && Lookup(lines, "stderr_file_name") !in {None, Some("")})
            && c.stderrFileName == (if c.stderr.File? then Lookup(lines, "stderr_file_name") else None)
  {
    hide RedirectionAt, Lookup, Reads, ListOf, NumberAt, BooleanAt, Customs, StdinOf, StdoutOf, ScheduleOf;
    StreamReads(lines, StderrRedirection);
  }

  lemma ModeReads(lines: seq<Line>)
    ensures ModeAt(lines) == ProgramTypes.Always <==> Reads(lines, "start_mode", "always")
    ensures ModeAt(lines) == ProgramTypes.Interval <==> Reads(lines, "start_mode", "interval")
    ensures ModeAt(lines) == ProgramTypes.Cron <==> Reads(lines, "start_mode", "cron")
  {
    hide FirstMode, SameName, Lookup;
    if At(lines, StartMode).Some? {
      ModeRead(MODES, At(lines, StartMode).value, ProgramTypes.Always);
      ModeRead(MODES, At(lines, StartMode).value, ProgramTypes.Interval);
      ModeRead(MODES, At(lines, StartMode).value, ProgramTypes.Cron);
    }
  }

  /** The schedule, with a default for the cron fields, and an interval cut to 32 bits. */
  lemma ScheduleLoaded(lines: seq<Line>)
    ensures var c := Loaded(lines);
            && (c.startMode.Always? <==> Reads(lines, "start_mode", "always"))
            && (c.startMode.Interval? <==> Reads(lines, "start_mode", "interval"))
            && (c.startMode.Cron? <==> Reads(lines, "start_mode", "cron") && Lookup(lines, "start_fields") != Some(""))
            && c.startFields == (if !c.startMode.Cron? then None
                                 else if Lookup(lines, "start_fields").Some? then Lookup(lines, "start_fields")
                                 else Some("* * * * *"))
            && (c.continueAfterError <==> Reads(lines, "continue_after_error", "true"))
            && c.startInterval == Number(lines, "start_interval") % 0x1_0000_0000
  {
    hide ModeAt, Lookup, SameName, IntegerOf, ListOf, Customs, StdinOf, StdoutOf, StderrOf;
    ModeReads(lines);
  }

  /** The number that an option stands for; none is zero. */
  function Number(lines: seq<Line>, name: string): nat {
    var text := Lookup(lines, name);
    if text.Some? && IntegerOf(text.value).Some? then IntegerOf(text.value).value else 0
  }

  /** The items of a list that is no longer than an int can say, with empty texts for those that
      are missing; a length that becomes negative as an int means no items. */
  lemma CommandLoaded(lines: seq<Line>)
    ensures var c, n, m := Loaded(lines), Number(lines, "arguments.length") % 0x1_0000_0000,
              Number(lines, "environment.length") % 0x1_0000_0000;
            && c.executable == (if Lookup(lines, "executable").Some? then Lookup(lines, "executable").value else "")
            && c.workingDirectory == (if Lookup(lines, "working_directory").Some?
                                      then Lookup(lines, "working_directory").value else ".")
            && |c.arguments| == (if n < 0x8000_0000 then n else 0)
            && |c.environment| == (if m < 0x8000_0000 then m else 0)
            && (forall i: nat | i < |c.arguments| ::
                  c.arguments[i] == var item := Lookup(lines, "arguments.item" + Digits(i, 10));
                                    if item.Some? then item.value else "")
            && (forall i: nat | i < |c.environment| ::
                  c.environment[i] == var item := Lookup(lines, "environment.item" + Digits(i, 10));
                                      if item.Some? then item.value else "")
  {
    hide Lookup, IntegerOf, Digits, Customs, StdinOf, StdoutOf, StderrOf, ScheduleOf, BooleanAt;
  }

  // ----- the procedure -----

  method GetStringList(file: ConfFile, length: Field, prefix: string) returns (items: seq<string>)
    ensures items == ListOf(file.lines, length, prefix)
  {
    hide IntegerOf, Lookup, FieldName, Digits;
    var n := GetInteger(At(file.lines, length), 0);
    items := [];
    var i := 0;
    while i < CountOf(n)
      invariant i <= CountOf(n) && |items| == i
      invariant forall k | 0 <= k < i :: items[k] == ItemText(file.lines, prefix, k)
    {
      items := items + [ItemText(file.lines, prefix, i)];
      i := i + 1;
    }
  }

  method GetRedirection(file: ConfFile, field: Field, nameField: Field, refused: set<Redirection>)
    returns (r: Redirection, name: Option<string>)
    ensures (r, name) == (var s := RedirectionAt(file.lines, field);
                          WithName(if s in refused then DevNull else s, TextAt(file.lines, nameField, "")))
  {
    r, name := RedirectionAt(file.lines, field), None;
    if r in refused {
      r := DevNull;
    }
    if r.File? {
      var text := TextAt(file.lines, nameField, "");
      if text == "" {
        r := DevNull;
      } else {
        name := Some(text);
      }
    }
  }

  /** The loop over all options with the prefix of custom options. */
  method GetCustomOptions(file: ConfFile) returns (options: seq<Custom>)
    ensures options == Customs(file.lines)
  {
    options := [];
    var i := 0;
    assert file.lines[0..] == file.lines;
    while i < |file.lines|
      invariant i <= |file.lines| && options + Customs(file.lines[i..]) == Customs(file.lines)
    {
      var line := file.lines[i];
      assert file.lines[i..][1..] == file.lines[i + 1..];
      if HasPrefix(line.name, CUSTOM) {
        options := options + [Custom(line.name[|CUSTOM|..], line.value)];
      }
      i := i + 1;
    }
  }

  /** program_config_load, when there is enough memory. */
  method Load(file: ConfFile) returns (c: Settings)
    ensures c == Loaded(file.lines)
  {
    hide IntegerOf, Lookup, FieldName, Digits, ListOf, RedirectionAt, ModeAt, Customs;
    var arguments := GetStringList(file, ArgumentsLength, ARGUMENTS);
    var environment := GetStringList(file, EnvironmentLength, ENVIRONMENT);
    var stdin, stdinFileName := GetRedirection(file, StdinRedirection, StdinFileName,
                                               {IndividualLog, ContinuousLog, Stdout});
    var stdout, stdoutFileName := GetRedirection(file, StdoutRedirection, StdoutFileName, {Pipe, Stdout});
    var stderr, stderrFileName := GetRedirection(file, StderrRedirection, StderrFileName, {Pipe});
    var mode, fields := ModeAt(file.lines), None;
    var interval := GetInteger(At(file.lines, StartInterval), 0);
    if mode.Cron? {
      var text := TextAt(file.lines, StartFields, "* * * * *");
      if text == "" {
        mode := Never;
      } else {
        fields := Some(text);
      }
    }
    var options := GetCustomOptions(file);
    c := Settings(TextAt(file.lines, Executable, ""), arguments, environment, TextAt(file.lines, WorkingDirectory, "."),
                  stdin, stdinFileName, stdout, stdoutFileName, stderr, stderrFileName,
                  mode, BooleanAt(file.lines, ContinueAfterError), interval % UINT32_LIMIT, fields, options);
  }

  // ----- the round trip -----

  predicate Named(r: Redirection, name: Option<string>) { r.File? ==> name != Some("") }

  /** What survives loading: the redirections that make sense for their streams, with the names
      of their files, and cron fields that are not empty. */
  predicate Loadable(c: Settings) {
    && StdinOk(c.stdin) && StdoutOk(c.stdout) && StderrOk(c.stderr)
    && Named(c.stdin, c.stdinFileName) && Named(c.stdout, c.stdoutFileName) && Named(c.stderr, c.stderrFileName)
    && (c.startMode.Cron? ==> c.startFields != Some(""))
  }

  lemma ListsRoundTrip(lines: seq<Line>, length: Field, prefix: string, items: seq<string>)
    requires At(lines, length) == Some(Digits(|items|, 10)) && ItemsHeld(lines, prefix, items) && |items| < INT32_LIMIT
    ensures ListOf(lines, length, prefix) == items
  {
    hide IntegerOf, Lookup, FieldName, Digits;
    DecimalRoundTrip(|items|);
    assert CountOf(|items|) == |items|;
    assert forall i: nat | i < |items| :: ItemText(lines, prefix, i) == items[i];
  }

  lemma NumbersRoundTrip(lines: seq<Line>, c: Settings)
    requires Says(lines, c) && WellFormed(c)
    ensures NumberAt(lines, StartInterval) == c.startInterval == NumberAt(lines, StartInterval) % UINT32_LIMIT
    ensures BooleanAt(lines, ContinueAfterError) == c.continueAfterError
  {
    hide IntegerOf, Lookup, FieldName, Digits;
    DecimalRoundTrip(c.startInterval);
    assert |Folded("false")| != |Folded("true")|;
  }

  lemma SymbolsLoaded(lines: seq<Line>, c: Settings)
    requires Says(lines, c)
    ensures RedirectionAt(lines, StdinRedirection) == c.stdin && RedirectionAt(lines, StdoutRedirection) == c.stdout
    ensures RedirectionAt(lines, StderrRedirection) == c.stderr && ModeAt(lines) == c.startMode
  {
    hide FirstRedirection, FirstMode, Lookup, FieldName, Digits, RedirectionName, ModeName;
    SymbolsRoundTrip(c.stdin, c.startMode);
    SymbolsRoundTrip(c.stdout, c.startMode);
    SymbolsRoundTrip(c.stderr, c.startMode);
  }

  lemma TextsLoaded(lines: seq<Line>, c: Settings)
    requires Says(lines, c)
    ensures TextAt(lines, Executable, "") == c.executable && TextAt(lines, WorkingDirectory, ".") == c.workingDirectory
    ensures TextAt(lines, StdinFileName, "") == Optional(c.stdin.File?, c.stdinFileName)
    ensures TextAt(lines, StdoutFileName, "") == Optional(c.stdout.File?, c.stdoutFileName)
    ensures TextAt(lines, StderrFileName, "") == Optional(c.stderr.File?, c.stderrFileName)
    ensures TextAt(lines, StartFields, "* * * * *") == Optional(c.startMode.Cron?, c.startFields)
  {
    hide Lookup, FieldName, Digits, RedirectionName, ModeName;
  }

  /** How a stream comes back: not at all when its redirection makes no sense for it, or when it
      is a file without a name. */
  function Stream(r: Redirection, name: Option<string>, ok: bool): (Redirection, Option<string>) {
    WithName(if ok then r else DevNull, Optional(r.File?, name))
  }

  function Schedule(m: ProgramTypes.StartMode, fields: Option<string>): (ProgramTypes.StartMode, Option<string>) {
    if !m.Cron? then (m, None) else if Optional(true, fields) == "" then (Never, None) else (Cron, fields)
  }

  /** What comes back of a configuration that is saved and loaded. */
  function Reloaded(c: Settings): Settings {
    c.(stdin := Stream(c.stdin, c.stdinFileName, StdinOk(c.stdin)).0,
       stdinFileName := Stream(c.stdin, c.stdinFileName, StdinOk(c.stdin)).1,
       stdout := Stream(c.stdout, c.stdoutFileName, StdoutOk(c.stdout)).0,
       stdoutFileName := Stream(c.stdout, c.stdoutFileName, StdoutOk(c.stdout)).1,
       stderr := Stream(c.stderr, c.stderrFileName, StderrOk(c.stderr)).0,
       stderrFileName := Stream(c.stderr, c.stderrFileName, StderrOk(c.stderr)).1,
       startMode := Schedule(c.startMode, c.startFields).0,
       startFields := Schedule(c.startMode, c.startFields).1,
       customOptions := Settled(c.customOptions))
  }

  lemma StreamsRoundTrip(lines: seq<Line>, c: Settings)
    requires Says(lines, c)
    ensures StdinOf(lines) == Stream(c.stdin, c.stdinFileName, StdinOk(c.stdin))
    ensures StdoutOf(lines) == Stream(c.stdout, c.stdoutFileName, StdoutOk(c.stdout))
    ensures StderrOf(lines) == Stream(c.stderr, c.stderrFileName, StderrOk(c.stderr))
  {
    hide Says, RedirectionAt, TextAt, WithName;
    SymbolsLoaded(lines, c);
    TextsLoaded(lines, c);
  }

  lemma ScheduleRoundTrip(lines: seq<Line>, c: Settings)
    requires Says(lines, c) && WellFormed(c)
    ensures ScheduleOf(lines) == Schedule(c.startMode, c.startFields)
  {
    hide Says, ModeAt, TextAt;
    SymbolsLoaded(lines, c);
    TextsLoaded(lines, c);
  }

  /** Whatever configuration was saved over whatever earlier file: this is what is loaded. */
  lemma SavedIsLoaded(lines: seq<Line>, c: Settings)
    requires Says(lines, c) && WellFormed(c)
    ensures Loaded(lines) == Reloaded(c)
  {
    hide StdinOf, StdoutOf, StderrOf, ScheduleOf, NumberAt, BooleanAt, ListOf, TextAt, At, Digits, RedirectionName,
         ModeName, ItemsHeld, Customs, Settled, Stream, Schedule, StdinOk, StdoutOk, StderrOk;
    ListsRoundTrip(lines, ArgumentsLength, ARGUMENTS, c.arguments);
    ListsRoundTrip(lines, EnvironmentLength, ENVIRONMENT, c.environment);
    NumbersRoundTrip(lines, c);
    StreamsRoundTrip(lines, c);
    ScheduleRoundTrip(lines, c);
    TextsLoaded(lines, c);
  }

  lemma LoadableStays(c: Settings)
    requires Loadable(c) && WellFormed(c)
    ensures Reloaded(c) == c.(customOptions := Settled(c.customOptions))
  {
  }

  /** It is the configuration that was saved, exactly when loading lets it through and its custom
      options have different names. */
  lemma RoundTrip(lines: seq<Line>, c: Settings)
    requires Says(lines, c) && WellFormed(c)
    ensures Loaded(lines) == c <==> Loadable(c) && DistinctNames(c.customOptions)
    ensures Loadable(c) ==> Loaded(lines) == c.(customOptions := Settled(c.customOptions))
  {
    hide Says, Loaded, Settled, DistinctNames;
    SavedIsLoaded(lines, c);
    if Loadable(c) {
      LoadableStays(c);
    }
    SettledOnce(c.customOptions);
  }

  /** Whatever a file says, what is loaded from it is a configuration that loading lets through. */
  lemma LoadedIsLoadable(lines: seq<Line>)
    ensures Loadable(Loaded(lines)) && WellFormed(Loaded(lines))
  {
    hide RedirectionAt, ModeAt, NumberAt, BooleanAt, At, Customs;
  }

  /** Loading any file, saving what it says, and loading again: nothing is lost, except that of
      custom options with the same name one is left. From then on, nothing changes any more. */
  lemma LoadedRoundTrip(lines: seq<Line>, saved: seq<Line>, again: seq<Line>)
    requires Says(saved, Loaded(lines)) && Says(again, Loaded(saved))
    ensures Loaded(saved) == Loaded(lines) <==> DistinctNames(Customs(lines))
    ensures Loaded(saved) == Loaded(lines).(customOptions := Settled(Customs(lines)))
    ensures Loaded(again) == Loaded(saved)
  {
    hide Says, WellFormed, Loadable, DistinctNames, Settled;
    LoadedIsLoadable(lines);
    RoundTrip(saved, Loaded(lines));
    LoadedIsLoadable(saved);
    RoundTrip(again, Loaded(saved));
    SettledOnce(Customs(lines));
  }

  /** Saving and loading in one go. */
  method SaveAndLoad(file: ConfFile, c: Settings, memory: nat, written: bool) returns (ok: bool, d: Settings)
    requires WellFormed(c)
    modifies file
    ensures ok <==> Saves(c, memory, written)
    ensures d == if ok then Reloaded(c) else Loaded(old(file.lines))
  {
    hide Says, Loaded, Reloaded;
    ok := Save(file, c, memory, written);
    d := Load(file);
    if ok {
      SavedIsLoaded(file.lines, c);
    }
  }
}
