/** Saving a program configuration to its file and loading it back (program_config.c). The file
    is a list of options with a name and a value each, as conf_file keeps it in memory. */
module ConfigFile {
  import opened Wrappers
  import opened ProgramTypes
  import opened IntegerText
  import opened ConfigNames

  datatype Line = Line(name: string, value: string)

  datatype Custom = Custom(name: string, value: string)

  /** What a configuration says, with the texts of the strings it refers to. */
  datatype Settings = Settings(
    executable: string, arguments: seq<string>, environment: seq<string>, workingDirectory: string,
    stdin: Redirection, stdinFileName: Option<string>,
    stdout: Redirection, stdoutFileName: Option<string>,
    stderr: Redirection, stderrFileName: Option<string>,
    startMode: ProgramTypes.StartMode, continueAfterError: bool, startInterval: nat, startFields: Option<string>,
    customOptions: seq<Custom>)

  const UINT32_LIMIT: nat := 0x1_0000_0000
  const INT32_LIMIT: nat := 0x8000_0000
  const NAME_BUFFER_SIZE: nat := 1024

  // ----- the list of options -----

  /** conf_file_get_option_value. */
  function Lookup(lines: seq<Line>, name: string): Option<string> {
    if lines == [] then None
    else if SameName(lines[0].name, name) then Some(lines[0].value)
    else Lookup(lines[1..], name)
  }

  /** conf_file_set_option_value: replaces the value of the option, or adds it at the end. */
  function WithLine(lines: seq<Line>, name: string, value: string): seq<Line> {
    if lines == [] then [Line(name, value)]
    else if SameName(lines[0].name, name) then [Line(lines[0].name, value)] + lines[1..]
    else [lines[0]] + WithLine(lines[1..], name, value)
  }

  /** conf_file_remove_option for a prefix. */
  function WithoutPrefix(lines: seq<Line>, prefix: string): seq<Line> {
    if lines == [] then []
    else if HasPrefix(lines[0].name, prefix) then WithoutPrefix(lines[1..], prefix)
    else [lines[0]] + WithoutPrefix(lines[1..], prefix)
  }

  /** The custom options, in the order of the file. */
  function Customs(lines: seq<Line>): seq<Custom> {
    if lines == [] then []
    else if HasPrefix(lines[0].name, CUSTOM) then
      [Custom(lines[0].name[|CUSTOM|..], lines[0].value)] + Customs(lines[1..])
    else Customs(lines[1..])
  }

  lemma {:induction false} LookupWith(lines: seq<Line>, name: string, value: string, m: string)
    ensures Lookup(WithLine(lines, name, value), m) == if SameName(name, m) then Some(value) else Lookup(lines, m)
  {
    hide Folded;
    if lines == [] {
      assert SameName(name, m) || Lookup([Line(name, value)], m) == Lookup([Line(name, value)][1..], m);
    } else if SameName(lines[0].name, name) {
      assert WithLine(lines, name, value)[1..] == lines[1..];
    } else {
      LookupWith(lines[1..], name, value, m);
      assert WithLine(lines, name, value)[1..] == WithLine(lines[1..], name, value);
    }
  }

  lemma {:induction false} LookupWithout(lines: seq<Line>, prefix: string, m: string)
    ensures Lookup(WithoutPrefix(lines, prefix), m) == if HasPrefix(m, prefix) then None else Lookup(lines, m)
  {
    hide SameName, HasPrefix;
    if lines != [] {
      LookupWithout(lines[1..], prefix, m);
      if SameName(lines[0].name, m) {
        PrefixIsFolded(lines[0].name, m, prefix);
      }
      assert !HasPrefix(lines[0].name, prefix) ==>
               WithoutPrefix(lines, prefix)[1..] == WithoutPrefix(lines[1..], prefix);
    }
  }

  lemma {:induction false} CustomsWithout(lines: seq<Line>)
    ensures Customs(WithoutPrefix(lines, CUSTOM)) == []
  {
    hide SameName, HasPrefix;
    if lines != [] {
      CustomsWithout(lines[1..]);
      assert !HasPrefix(lines[0].name, CUSTOM) ==>
               WithoutPrefix(lines, CUSTOM)[1..] == WithoutPrefix(lines[1..], CUSTOM);
    }
  }

  // ----- custom options by name -----

  /** Setting one custom option: it replaces the value of the option with that name, if there is
      one. */
  function WithOption(options: seq<Custom>, o: Custom): seq<Custom> {
    if options == [] then [o]
    else if SameName(options[0].name, o.name) then [Custom(options[0].name, o.value)] + options[1..]
    else [options[0]] + WithOption(options[1..], o)
  }

  /** What is left of custom options when they are set one after the other. */
  function Settled(options: seq<Custom>): seq<Custom> {
    if options == [] then []
    else WithOption(Settled(options[..|options| - 1]), options[|options| - 1])
  }

  ghost predicate DistinctNames(options: seq<Custom>) {
    forall i, j | 0 <= i < j < |options| :: !SameName(options[i].name, options[j].name)
  }

  ghost predicate Has(options: seq<Custom>, name: string) {
    exists i :: 0 <= i < |options| && SameName(options[i].name, name)
  }

  lemma {:induction false} OptionIsSet(options: seq<Custom>, o: Custom)
    requires DistinctNames(options)
    ensures DistinctNames(WithOption(options, o))
    ensures |WithOption(options, o)| == |options| + if Has(options, o.name) then 0 else 1
    ensures !Has(options, o.name) ==> WithOption(options, o) == options + [o]
    ensures forall m :: Has(WithOption(options, o), m) <==> Has(options, m) || SameName(o.name, m)
  {
    hide Folded, DistinctNames, Has;
    OneOption(o);
    if options != [] {
      var rest, after := options[1..], WithOption(options, o);
      FirstHas(options);
      FirstHas(after);
      if SameName(options[0].name, o.name) {
        assert after[1..] == rest;
      } else {
        OptionIsSet(rest, o);
        assert after[1..] == WithOption(rest, o);
      }
    }
  }

  lemma OneOption(o: Custom)
    ensures DistinctNames([o]) && !Has([], o.name)
    ensures forall m :: !Has([], m) && (Has([o], m) <==> SameName(o.name, m))
  {
    hide Folded;
    var one := [o];
    assert one[0] == o;
  }

  lemma FirstHas(options: seq<Custom>)
    requires options != []
    ensures forall m :: Has(options, m) <==> SameName(options[0].name, m) || Has(options[1..], m)
    ensures DistinctNames(options) <==> DistinctNames(options[1..]) && !Has(options[1..], options[0].name)
  {
    hide Folded;
    var rest := options[1..];
    assert forall i | 0 <= i < |rest| :: rest[i] == options[i + 1];
    assert forall i | 0 < i < |options| :: options[i] == rest[i - 1];
  }

  /** Setting options one by one leaves one per name: all of them, if the names differ, and
      otherwise fewer. */
  lemma {:induction false} SettledOnce(options: seq<Custom>)
    ensures DistinctNames(Settled(options)) && |Settled(options)| <= |options|
    ensures forall m :: Has(Settled(options), m) <==> Has(options, m)
    ensures Settled(options) == options <==> DistinctNames(options)
  {
    if options != [] {
      var n := |options| - 1;
      var front, o := options[..n], options[n];
      SettledOnce(front);
      OptionIsSet(Settled(front), o);
      assert options == front + [o];
      hide WithOption, SameName, Settled;
      FrontHas(front, o);
    }
  }

  /** The value of the first option with this name. */
  function FirstValue(options: seq<Custom>, name: string): Option<string> {
    if options == [] then None
    else if SameName(options[0].name, name) then Some(options[0].value)
    else FirstValue(options[1..], name)
  }

  function LastValue(options: seq<Custom>, name: string): Option<string> {
    if options == [] then None
    else if SameName(options[|options| - 1].name, name) then Some(options[|options| - 1].value)
    else LastValue(options[..|options| - 1], name)
  }

  lemma {:induction false} ValueIsSet(options: seq<Custom>, o: Custom, m: string)
    ensures FirstValue(WithOption(options, o), m) == if SameName(o.name, m) then Some(o.value)
            else FirstValue(options, m)
  {
    var after := WithOption(options, o);
    hide Folded;
    if options == [] {
      assert after[1..] == [];
    } else if SameName(options[0].name, o.name) {
      assert after[1..] == options[1..];
    } else {
      ValueIsSet(options[1..], o, m);
      assert after[1..] == WithOption(options[1..], o);
    }
  }

  /** Of several options with the same name the last one counts. */
  lemma {:induction false} LastCounts(options: seq<Custom>, m: string)
    ensures FirstValue(Settled(options), m) == LastValue(options, m)
  {
    if options != [] {
      var front, o := options[..|options| - 1], options[|options| - 1];
      LastCounts(front, m);
      ValueIsSet(Settled(front), o, m);
    }
  }

  lemma FrontHas(front: seq<Custom>, o: Custom)
    ensures forall m :: Has(front + [o], m) <==> Has(front, m) || SameName(o.name, m)
    ensures DistinctNames(front + [o]) <==> DistinctNames(front) && !Has(front, o.name)
  {
    hide SameName;
    var options := front + [o];
    assert forall i | 0 <= i < |front| :: options[i] == front[i];
    assert options[|front|] == o;
  }

  lemma {:induction false} CustomAdded(lines: seq<Line>, name: string, value: string)
    ensures Customs(WithLine(lines, CUSTOM + name, value)) == WithOption(Customs(lines), Custom(name, value))
  {
    var line := Line(CUSTOM + name, value);
    OwnPrefix(CUSTOM, name);
    assert line.name[|CUSTOM|..] == name;
    if lines == [] {
      assert Customs([line]) == [Custom(name, value)] + Customs([line][1..]);
    } else {
      var first, after := lines[0], WithLine(lines, line.name, value);
      CustomAdded(lines[1..], name, value);
      if HasPrefix(first.name, CUSTOM) {
        RestIsFolded(CUSTOM, first.name, line.name);
      } else {
        DifferentByPrefix(first.name, line.name, CUSTOM);
      }
      hide SameName, HasPrefix;
      assert after[1..] == if SameName(first.name, line.name) then lines[1..]
             else WithLine(lines[1..], line.name, value);
    }
  }

  // ----- saving -----

  function At(lines: seq<Line>, f: Field): Option<string> { Lookup(lines, FieldName(f)) }

  function ItemAt(lines: seq<Line>, prefix: string, i: nat): Option<string> { Lookup(lines, ItemName(prefix, i)) }

  /** The option with a fixed name is set; nothing else changes. */
  ghost predicate FieldSet(a: seq<Line>, b: seq<Line>, f: Field, value: string) {
    && (forall g :: At(b, g) == if g == f then Some(value) else At(a, g))
    && SameItems(a, b, ARGUMENTS) && SameItems(a, b, ENVIRONMENT)
    && OthersKept(a, b)
  }

  ghost predicate SameItems(a: seq<Line>, b: seq<Line>, prefix: string) {
    forall i: nat :: ItemAt(b, prefix, i) == ItemAt(a, prefix, i)
  }

  ghost predicate SameFields(a: seq<Line>, b: seq<Line>) {
    forall g :: At(b, g) == At(a, g)
  }

  /** A name that no part of a configuration is saved under. */
  ghost predicate Foreign(name: string) {
    && (forall f :: !SameName(FieldName(f), name))
    && !HasPrefix(name, ARGUMENTS) && !HasPrefix(name, ENVIRONMENT) && !HasPrefix(name, CUSTOM)
  }

  ghost predicate OthersKept(a: seq<Line>, b: seq<Line>) {
    forall m | Foreign(m) :: Lookup(b, m) == Lookup(a, m)
  }

  lemma FieldIsSet(lines: seq<Line>, f: Field, value: string)
    ensures FieldSet(lines, WithLine(lines, FieldName(f), value), f, value)
  {
    hide SameName, HasPrefix, Lookup, WithLine, FieldName;
    var after := WithLine(lines, FieldName(f), value);
    forall g
      ensures At(after, g) == if g == f then Some(value) else At(lines, g)
    {
      LookupWith(lines, FieldName(f), value, FieldName(g));
      if f != g && SameName(FieldName(f), FieldName(g)) {
        FieldsDiffer(f, g);
      }
      SameNameReflexive(FieldName(f));
    }
    FieldIsNoItem(f);
    ItemsStay(lines, f, value, ARGUMENTS);
    ItemsStay(lines, f, value, ENVIRONMENT);
    forall m | Foreign(m)
      ensures Lookup(after, m) == Lookup(lines, m)
    {
      LookupWith(lines, FieldName(f), value, m);
    }
  }

  lemma SameNameReflexive(a: string)
    ensures SameName(a, a)
  {
  }

  lemma ItemsStay(lines: seq<Line>, f: Field, value: string, prefix: string)
    requires !HasPrefix(FieldName(f), prefix)
    ensures SameItems(lines, WithLine(lines, FieldName(f), value), prefix)
  {
    hide SameName, HasPrefix, Lookup, WithLine, FieldName;
    forall i: nat
      ensures ItemAt(WithLine(lines, FieldName(f), value), prefix, i) == ItemAt(lines, prefix, i)
    {
      LookupWith(lines, FieldName(f), value, ItemName(prefix, i));
      OwnPrefix(prefix, Digits(i, 10));
      DifferentByPrefix(FieldName(f), ItemName(prefix, i), prefix);
    }
  }

  /** The text saved under each fixed name. */
  function FieldText(c: Settings, f: Field): string {
    match f
    case Executable => c.executable
    case ArgumentsLength => Digits(|c.arguments|, 10)
    case EnvironmentLength => Digits(|c.environment|, 10)
    case WorkingDirectory => c.workingDirectory
    case StdinRedirection => RedirectionName(c.stdin)
    case StdinFileName => Optional(c.stdin.File?, c.stdinFileName)
    case StdoutRedirection => RedirectionName(c.stdout)
    case StdoutFileName => Optional(c.stdout.File?, c.stdoutFileName)
    case StderrRedirection => RedirectionName(c.stderr)
    case StderrFileName => Optional(c.stderr.File?, c.stderrFileName)
    case StartMode => ModeName(c.startMode)
    case ContinueAfterError => if c.continueAfterError then "true" else "false"
    case StartInterval => Digits(c.startInterval, 10)
    case StartFields => Optional(c.startMode.Cron?, c.startFields)
  }

  function Optional(used: bool, text: Option<string>): string {
    if used && text.Some? then text.value else ""
  }

  ghost predicate ItemsHeld(lines: seq<Line>, prefix: string, items: seq<string>) {
    forall i: nat :: ItemAt(lines, prefix, i) == if i < |items| then Some(items[i]) else None
  }

  /** The options say exactly what the configuration says: no item of a longer list and no
      custom option is left over from before. Of custom options with equal names, one is left. */
  ghost predicate Says(lines: seq<Line>, c: Settings) {
    && (forall f :: At(lines, f) == Some(FieldText(c, f)))
    && ItemsHeld(lines, ARGUMENTS, c.arguments) && ItemsHeld(lines, ENVIRONMENT, c.environment)
    && Customs(lines) == Settled(c.customOptions)
  }

  lemma FieldSaid(lines: seq<Line>, c: Settings, f: Field)
    requires Says(lines, c)
    ensures Lookup(lines, FieldName(f)) == Some(FieldText(c, f))
  {
    hide Lookup, FieldName, FieldText, ItemsHeld, Customs, Settled;
    assert At(lines, f) == Some(FieldText(c, f));
  }

  /** The format of a configuration file: every option by its name. */
  lemma FormatOfCommand(lines: seq<Line>, c: Settings)
    requires Says(lines, c)
    ensures Lookup(lines, "executable") == Some(c.executable)
    ensures Lookup(lines, "working_directory") == Some(c.workingDirectory)
    ensures Lookup(lines, "arguments.length") == Some(Digits(|c.arguments|, 10))
    ensures Lookup(lines, "environment.length") == Some(Digits(|c.environment|, 10))
    ensures forall i: nat | i < |c.arguments| ::
              Lookup(lines, "arguments.item" + Digits(i, 10)) == Some(c.arguments[i])
    ensures forall i: nat | i < |c.environment| ::
              Lookup(lines, "environment.item" + Digits(i, 10)) == Some(c.environment[i])
  {
    hide Lookup, Digits, Customs, Settled, RedirectionName, ModeName;
    assert forall i: nat | i < |c.arguments| :: ItemAt(lines, ARGUMENTS, i) == Some(c.arguments[i]);
    assert forall i: nat | i < |c.environment| :: ItemAt(lines, ENVIRONMENT, i) == Some(c.environment[i]);
    hide Says;
    FieldSaid(lines, c, Executable);
    FieldSaid(lines, c, WorkingDirectory);
    FieldSaid(lines, c, ArgumentsLength);
    FieldSaid(lines, c, EnvironmentLength);
  }

  lemma FormatOfStreams(lines: seq<Line>, c: Settings)
    requires Says(lines, c)
    ensures Lookup(lines, "stdin_redirection")
            == Some(match c.stdin case DevNull => "/dev/null" case Pipe => "pipe" case File => "file"
                    case IndividualLog => "individual_log" case ContinuousLog => "continuous_log"
                    case Stdout => "stdout")
    ensures Lookup(lines, "stdin_file_name")
            == Some(if c.stdin.File? && c.stdinFileName.Some? then c.stdinFileName.value else "")
    ensures Lookup(lines, "stdout_redirection")
            == Some(match c.stdout case DevNull => "/dev/null" case Pipe => "pipe" case File => "file"
                    case IndividualLog => "individual_log" case ContinuousLog => "continuous_log"
                    case Stdout => "stdout")
    ensures Lookup(lines, "stdout_file_name")
            == Some(if c.stdout.File? && c.stdoutFileName.Some? then c.stdoutFileName.value else "")
    ensures Lookup(lines, "stderr_redirection")
            == Some(match c.stderr case DevNull => "/dev/null" case Pipe => "pipe" case File => "file"
                    case IndividualLog => "individual_log" case ContinuousLog => "continuous_log"
                    case Stdout => "stdout")
    ensures Lookup(lines, "stderr_file_name")
            == Some(if c.stderr.File? && c.stderrFileName.Some? then c.stderrFileName.value else "")
  {
    hide Says, Lookup, Digits, ModeName;
    FieldSaid(lines, c, StdinRedirection);
    FieldSaid(lines, c, StdinFileName);
    FieldSaid(lines, c, StdoutRedirection);
    FieldSaid(lines, c, StdoutFileName);
    FieldSaid(lines, c, StderrRedirection);
    FieldSaid(lines, c, StderrFileName);
  }

  lemma FormatOfSchedule(lines: seq<Line>, c: Settings)
    requires Says(lines, c)
    ensures Lookup(lines, "start_mode") == Some(match c.startMode case Never => "never" case Always => "always"
                                                case Interval => "interval" case Cron => "cron")
    ensures Lookup(lines, "continue_after_error") == Some(if c.continueAfterError then "true" else "false")
    ensures Lookup(lines, "start_interval") == Some(Digits(c.startInterval, 10))
    ensures Lookup(lines, "start_fields")
            == Some(if c.startMode.Cron? && c.startFields.Some? then c.startFields.value else "")
  {
    hide Says, Lookup, Digits, RedirectionName;
    FieldSaid(lines, c, Field.StartMode);
    FieldSaid(lines, c, ContinueAfterError);
    FieldSaid(lines, c, StartInterval);
    FieldSaid(lines, c, StartFields);
  }

  /** A custom option is found under its name with the prefix. */
  lemma {:induction false} CustomFound(lines: seq<Line>, name: string)
    ensures Lookup(lines, CUSTOM + name) == FirstValue(Customs(lines), name)
  {
    OwnPrefix(CUSTOM, name);
    assert (CUSTOM + name)[|CUSTOM|..] == name;
    if lines != [] {
      var first, rest := lines[0].name, Customs(lines[1..]);
      CustomFound(lines[1..], name);
      if HasPrefix(first, CUSTOM) {
        RestIsFolded(CUSTOM, first, CUSTOM + name);
        var option := Custom(first[|CUSTOM|..], lines[0].value);
        assert ([option] + rest)[1..] == rest;
      } else {
        DifferentByPrefix(first, CUSTOM + name, CUSTOM);
      }
    }
  }

  lemma FormatOfOptions(lines: seq<Line>, c: Settings, name: string)
    requires Says(lines, c)
    ensures Lookup(lines, "custom." + name) == LastValue(c.customOptions, name)
  {
    hide Lookup, Customs, Settled, FirstValue, LastValue, FieldText, ItemsHeld;
    CustomFound(lines, name);
    LastCounts(c.customOptions, name);
  }

  /** What holds of every configuration: names are only there when they are needed, and the
      lengths of lists and the interval have their widths. */
  ghost predicate WellFormed(c: Settings) {
    && (c.stdinFileName.Some? <==> c.stdin.File?)
    && (c.stdoutFileName.Some? <==> c.stdout.File?)
    && (c.stderrFileName.Some? <==> c.stderr.File?)
    && (c.startFields.Some? <==> c.startMode.Cron?)
    && |c.arguments| < INT32_LIMIT && |c.environment| < INT32_LIMIT
    && c.startInterval < UINT32_LIMIT
  }

  function OtherList(prefix: string): string { if prefix == ARGUMENTS then ENVIRONMENT else ARGUMENTS }

  /** The options of one list: its length and its items, and nothing else. */
  ghost predicate ListSet(a: seq<Line>, b: seq<Line>, length: Field, prefix: string, items: seq<string>) {
    && (forall g :: At(b, g) == if g == length then Some(Digits(|items|, 10)) else At(a, g))
    && ItemsHeld(b, prefix, items)
    && SameItems(a, b, OtherList(prefix))
    && OthersKept(a, b)
  }

  /** Item number n is set, after those before it. */
  lemma ItemIsSet(lines: seq<Line>, prefix: string, n: nat, items: seq<string>)
    requires prefix in {ARGUMENTS, ENVIRONMENT} && n < |items| && ItemsHeld(lines, prefix, items[..n])
    ensures ItemsHeld(WithLine(lines, ItemName(prefix, n), items[n]), prefix, items[..n + 1])
    ensures SameFields(lines, WithLine(lines, ItemName(prefix, n), items[n]))
    ensures SameItems(lines, WithLine(lines, ItemName(prefix, n), items[n]), OtherList(prefix))
    ensures OthersKept(lines, WithLine(lines, ItemName(prefix, n), items[n]))
  {
    hide SameName, HasPrefix, Lookup, WithLine, FieldName, Digits;
    var name := ItemName(prefix, n);
    var after := WithLine(lines, name, items[n]);
    OwnPrefix(prefix, Digits(n, 10));
    forall i: nat
      ensures ItemAt(after, prefix, i) == if i < n + 1 then Some(items[..n + 1][i]) else None
    {
      LookupWith(lines, name, items[n], ItemName(prefix, i));
      assert ItemAt(lines, prefix, i) == if i < n then Some(items[..n][i]) else None;
      if SameName(name, ItemName(prefix, i)) {
        ItemsDiffer(prefix, n, i);
      }
      SameNameReflexive(name);
    }
    forall g
      ensures At(after, g) == At(lines, g)
    {
      LookupWith(lines, name, items[n], FieldName(g));
      FieldIsNoItem(g);
      DifferentByPrefix(name, FieldName(g), prefix);
    }
    var p := OtherList(prefix);
    forall i: nat
      ensures ItemAt(after, p, i) == ItemAt(lines, p, i)
    {
      LookupWith(lines, name, items[n], ItemName(p, i));
      OtherPrefix(p, Digits(i, 10), prefix);
      DifferentByPrefix(name, ItemName(p, i), prefix);
    }
    forall m | Foreign(m)
      ensures Lookup(after, m) == Lookup(lines, m)
    {
      LookupWith(lines, name, items[n], m);
      DifferentByPrefix(name, m, prefix);
    }
  }

  /** All items of one list are removed. */
  lemma ItemsRemoved(lines: seq<Line>, prefix: string)
    requires prefix in {ARGUMENTS, ENVIRONMENT}
    ensures ItemsHeld(WithoutPrefix(lines, prefix), prefix, [])
    ensures SameFields(lines, WithoutPrefix(lines, prefix))
    ensures SameItems(lines, WithoutPrefix(lines, prefix), OtherList(prefix))
    ensures OthersKept(lines, WithoutPrefix(lines, prefix))
  {
    hide SameName, HasPrefix, Lookup, FieldName, Digits;
    var after := WithoutPrefix(lines, prefix);
    forall i: nat
      ensures ItemAt(after, prefix, i) == None
    {
      LookupWithout(lines, prefix, ItemName(prefix, i));
      OwnPrefix(prefix, Digits(i, 10));
    }
    forall g
      ensures At(after, g) == At(lines, g)
    {
      LookupWithout(lines, prefix, FieldName(g));
      FieldIsNoItem(g);
    }
    var p := OtherList(prefix);
    forall i: nat
      ensures ItemAt(after, p, i) == ItemAt(lines, p, i)
    {
      LookupWithout(lines, prefix, ItemName(p, i));
      OtherPrefix(p, Digits(i, 10), prefix);
    }
    forall m | Foreign(m)
      ensures Lookup(after, m) == Lookup(lines, m)
    {
      LookupWithout(lines, prefix, m);
    }
  }

  /** Lists, fixed options and others stay when custom options are set or removed. */
  ghost predicate CustomOnly(a: seq<Line>, b: seq<Line>) {
    SameFields(a, b) && SameItems(a, b, ARGUMENTS) && SameItems(a, b, ENVIRONMENT) && OthersKept(a, b)
  }

  lemma CustomIsOther(name: string)
    requires HasPrefix(name, CUSTOM)
    ensures forall f :: !SameName(name, FieldName(f))
    ensures forall p, i: nat | p in {ARGUMENTS, ENVIRONMENT} ::
              !SameName(name, ItemName(p, i)) && !HasPrefix(ItemName(p, i), CUSTOM)
    ensures forall m | Foreign(m) :: !SameName(name, m)
  {
    hide SameName, HasPrefix, FieldName, Digits;
    forall f ensures !SameName(name, FieldName(f)) {
      FieldIsNotCustom(f);
      DifferentByPrefix(name, FieldName(f), CUSTOM);
    }
    forall p, i: nat | p in {ARGUMENTS, ENVIRONMENT}
      ensures !SameName(name, ItemName(p, i)) && !HasPrefix(ItemName(p, i), CUSTOM)
    {
      OtherPrefix(p, Digits(i, 10), CUSTOM);
      DifferentByPrefix(name, ItemName(p, i), CUSTOM);
    }
    forall m | Foreign(m) ensures !SameName(name, m) {
      DifferentByPrefix(name, m, CUSTOM);
    }
  }

  lemma CustomSet(lines: seq<Line>, name: string, value: string)
    ensures CustomOnly(lines, WithLine(lines, CUSTOM + name, value))
  {
    hide SameName, HasPrefix, Lookup, WithLine, FieldName, Digits, Foreign;
    var full := CUSTOM + name;
    var after := WithLine(lines, full, value);
    OwnPrefix(CUSTOM, name);
    CustomIsOther(full);
    forall m ensures Lookup(after, m) == if SameName(full, m) then Some(value) else Lookup(lines, m) {
      LookupWith(lines, full, value, m);
    }
  }

  lemma CustomsRemoved(lines: seq<Line>)
    ensures CustomOnly(lines, WithoutPrefix(lines, CUSTOM)) && Customs(WithoutPrefix(lines, CUSTOM)) == []
  {
    hide SameName, HasPrefix, Lookup, FieldName, Digits;
    var after := WithoutPrefix(lines, CUSTOM);
    CustomsWithout(lines);
    OwnPrefix(CUSTOM, "");
    CustomIsOther(CUSTOM + "");
    forall m ensures Lookup(after, m) == if HasPrefix(m, CUSTOM) then None else Lookup(lines, m) {
      LookupWithout(lines, CUSTOM, m);
    }
    forall g ensures At(after, g) == At(lines, g) {
      FieldIsNotCustom(g);
    }
  }

  /** The options of a configuration file in memory. */
  class ConfFile {
    var lines: seq<Line>
    var room: nat          // how many options can still be stored

    constructor (lines: seq<Line>, room: nat)
      ensures this.lines == lines && this.room == room
    {
      this.lines, this.room := lines, room;
    }

    /** program_config_set_string, _set_integer and the like; it fails when there is no memory. */
    method SetField(f: Field, value: string) returns (ok: bool)
      modifies this
      ensures ok <==> old(room) >= 1
      ensures ok ==> FieldSet(old(lines), lines, f, value) && room == old(room) - 1
    {
      FieldIsSet(lines, f, value);
      ok := Store(FieldName(f), value);
    }

    /** conf_file_set_option_value. */
    method Store(name: string, value: string) returns (ok: bool)
      modifies this
      ensures ok <==> old(room) >= 1
      ensures ok ==> lines == WithLine(old(lines), name, value) && room == old(room) - 1
    {
      if room == 0 {
        return false;
      }
      lines, room := WithLine(lines, name, value), room - 1;
      ok := true;
    }

    /** program_config_set_string_list. */
    method SetStringList(length: Field, prefix: string, items: seq<string>) returns (ok: bool)
      requires prefix in {ARGUMENTS, ENVIRONMENT}
      modifies this
      ensures ok <==> old(room) >= 1 + |items|
      ensures ok ==> ListSet(old(lines), lines, length, prefix, items) && room == old(room) - 1 - |items|
    {
      hide Lookup, WithLine, WithoutPrefix, FieldName, Digits, Foreign, HasPrefix;
      ok := SetField(length, Digits(|items|, 10));
      if !ok {
        return;
      }
      ItemsRemoved(lines, prefix);
      lines := WithoutPrefix(lines, prefix);
      assert items[..0] == [];
      for i := 0 to |items|
        invariant ItemsHeld(lines, prefix, items[..i]) && room == old(room) - 1 - i
        invariant forall g :: At(lines, g) == if g == length then Some(Digits(|items|, 10)) else At(old(lines), g)
        invariant SameItems(old(lines), lines, OtherList(prefix))
        invariant OthersKept(old(lines), lines)
      {
        ItemIsSet(lines, prefix, i, items);
        ok := Store(ItemName(prefix, i), items[i]);
        if !ok {
          return;
        }
      }
      assert items[..|items|] == items;
      ok := true;
    }

    /** The custom options replace those of before. It fails when a name does not fit into the
        buffer with its prefix, or when there is only memory for fewer options. */
    method SetCustomOptions(options: seq<Custom>) returns (ok: bool)
      modifies this
      ensures ok <==> |options| <= old(room) && forall o | o in options :: |CUSTOM| + |o.name| < NAME_BUFFER_SIZE
      ensures ok ==> CustomOnly(old(lines), lines) && Customs(lines) == Settled(options)
    {
      hide Lookup, WithLine, WithoutPrefix, FieldName, Digits, Foreign, HasPrefix, SameName, WithOption;
      CustomsRemoved(lines);
      lines := WithoutPrefix(lines, CUSTOM);
      assert options[..0] == [];
      for i := 0 to |options|
        invariant CustomOnly(old(lines), lines) && Customs(lines) == Settled(options[..i]) && room == old(room) - i
        invariant forall k | 0 <= k < i :: |CUSTOM| + |options[k].name| < NAME_BUFFER_SIZE
      {
        var o := options[i];
        if |CUSTOM| + |o.name| >= NAME_BUFFER_SIZE {
          return false;
        }
        CustomSet(lines, o.name, o.value);
        CustomAdded(lines, o.name, o.value);
        ok := Store(CUSTOM + o.name, o.value);
        if !ok {
          return;
        }
        assert options[..i + 1][..i] == options[..i];
      }
      assert options[..|options|] == options;
      ok := true;
    }
  }

  /** How many options a configuration is saved as. */
  function OptionCount(c: Settings): nat { 14 + |c.arguments| + |c.environment| + |c.customOptions| }

  /** Whether saving works: there is memory for every option, names fit into the buffer, and the
      file can be written. */
  ghost predicate Saves(c: Settings, memory: nat, written: bool) {
    written && OptionCount(c) <= memory && forall o | o in c.customOptions :: |CUSTOM| + |o.name| < NAME_BUFFER_SIZE
  }

  /** program_config_save. Whatever the file said before, it says exactly what the configuration
      says afterwards; options that are none of its business stay. The file is only touched by
      the last step. */
  method Save(file: ConfFile, c: Settings, memory: nat, written: bool) returns (ok: bool)
    modifies file
    ensures ok <==> Saves(c, memory, written)
    ensures if ok then Says(file.lines, c) && OthersKept(old(file.lines), file.lines)
            else file.lines == old(file.lines)
  {
    hide CommandSaved, RedirectionsSaved, ScheduleSaved, CustomOnly, Says, OthersKept, Customs, Settled;
    var conf := new ConfFile(file.lines, memory);
    ok := SaveCommand(conf, c);
    ghost var command := conf.lines;
    if ok {
      ok := SaveRedirections(conf, c);
    }
    ghost var redirections := conf.lines;
    if ok {
      ok := SaveSchedule(conf, c);
    }
    ghost var schedule := conf.lines;
    if ok {
      ok := conf.SetCustomOptions(c.customOptions);
    }
    ok := ok && written;
    if ok {
      AllSaved(file.lines, command, redirections, schedule, conf.lines, c);
      file.lines := conf.lines;
    }
  }

  ghost predicate CommandSaved(a: seq<Line>, b: seq<Line>, c: Settings) {
    && FieldsSet(a, b, {Executable, ArgumentsLength, EnvironmentLength, WorkingDirectory}, c)
    && ItemsHeld(b, ARGUMENTS, c.arguments) && ItemsHeld(b, ENVIRONMENT, c.environment) && OthersKept(a, b)
  }

  ghost predicate RedirectionsSaved(a: seq<Line>, b: seq<Line>, c: Settings) {
    && FieldsSet(a, b, {StdinRedirection, StdinFileName, StdoutRedirection, StdoutFileName, StderrRedirection,
                        StderrFileName}, c)
    && SameItems(a, b, ARGUMENTS) && SameItems(a, b, ENVIRONMENT) && OthersKept(a, b)
  }

  ghost predicate ScheduleSaved(a: seq<Line>, b: seq<Line>, c: Settings) {
    && FieldsSet(a, b, {StartMode, ContinueAfterError, StartInterval, StartFields}, c)
    && SameItems(a, b, ARGUMENTS) && SameItems(a, b, ENVIRONMENT) && OthersKept(a, b)
  }

  lemma AllSaved(a: seq<Line>, b: seq<Line>, d: seq<Line>, e: seq<Line>, f: seq<Line>, c: Settings)
    requires CommandSaved(a, b, c) && RedirectionsSaved(b, d, c) && ScheduleSaved(d, e, c)
    requires CustomOnly(e, f) && Customs(f) == Settled(c.customOptions)
    ensures Says(f, c) && OthersKept(a, f)
  {
    hide Lookup, FieldName, FieldText, Foreign, At, ItemAt, Customs, Settled;
    forall g
      ensures At(f, g) == Some(FieldText(c, g))
    {
      assert At(f, g) == At(e, g);
      assert g.Executable? || g.ArgumentsLength? || g.EnvironmentLength? || g.WorkingDirectory?
             || g.StdinRedirection? || g.StdinFileName? || g.StdoutRedirection? || g.StdoutFileName?
             || g.StderrRedirection? || g.StderrFileName?
             || g.StartMode? || g.ContinueAfterError? || g.StartInterval? || g.StartFields?;
    }
    assert ItemsHeld(f, ARGUMENTS, c.arguments);
    assert ItemsHeld(f, ENVIRONMENT, c.environment);
  }

  /** These fixed options are set, and no other. */
  ghost predicate FieldsSet(a: seq<Line>, b: seq<Line>, fields: set<Field>, c: Settings) {
    forall f :: At(b, f) == if f in fields then Some(FieldText(c, f)) else At(a, f)
  }

  method SaveCommand(conf: ConfFile, c: Settings) returns (ok: bool)
    modifies conf
    ensures ok <==> old(conf.room) >= 4 + |c.arguments| + |c.environment|
    ensures ok ==> conf.room == old(conf.room) - 4 - |c.arguments| - |c.environment|
    ensures ok ==> CommandSaved(old(conf.lines), conf.lines, c)
  {
    hide Lookup, FieldName, Foreign, At, ItemAt, Digits;
    assert OtherList(ENVIRONMENT) == ARGUMENTS;
    ok := conf.SetField(Executable, c.executable);
    if ok {
      ok := conf.SetStringList(ArgumentsLength, ARGUMENTS, c.arguments);
    }
    if ok {
      ok := conf.SetStringList(EnvironmentLength, ENVIRONMENT, c.environment);
    }
    if ok {
      ok := conf.SetField(WorkingDirectory, c.workingDirectory);
    }
  }

  method SaveRedirections(conf: ConfFile, c: Settings) returns (ok: bool)
    modifies conf
    ensures ok <==> old(conf.room) >= 6
    ensures ok ==> conf.room == old(conf.room) - 6
    ensures ok ==> RedirectionsSaved(old(conf.lines), conf.lines, c)
  {
    hide Lookup, FieldName, Foreign, At, ItemAt, Digits;
    ok := conf.SetField(StdinRedirection, RedirectionName(c.stdin));
    if ok {
      ok := conf.SetField(StdinFileName, Optional(c.stdin.File?, c.stdinFileName));
    }
    if ok {
      ok := conf.SetField(StdoutRedirection, RedirectionName(c.stdout));
    }
    if ok {
      ok := conf.SetField(StdoutFileName, Optional(c.stdout.File?, c.stdoutFileName));
    }
    if ok {
      ok := conf.SetField(StderrRedirection, RedirectionName(c.stderr));
    }
    if ok {
      ok := conf.SetField(StderrFileName, Optional(c.stderr.File?, c.stderrFileName));
    }
  }

  method SaveSchedule(conf: ConfFile, c: Settings) returns (ok: bool)
    modifies conf
    ensures ok <==> old(conf.room) >= 4
    ensures ok ==> conf.room == old(conf.room) - 4
    ensures ok ==> ScheduleSaved(old(conf.lines), conf.lines, c)
  {
    hide Lookup, FieldName, Foreign, At, ItemAt, Digits;
    ok := conf.SetField(StartMode, ModeName(c.startMode));
    if ok {
      ok := conf.SetField(ContinueAfterError, if c.continueAfterError then "true" else "false");
    }
    if ok {
      ok := conf.SetField(StartInterval, Digits(c.startInterval, 10));
    }
    if ok {
      ok := conf.SetField(StartFields, Optional(c.startMode.Cron?, c.startFields));
    }
  }
}
