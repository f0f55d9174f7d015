/** The configuration of a program (program_config.h), and the references it keeps to the
    strings and lists it names. */
module ProgramPins {
  import opened ObjectGraph
  import opened ProgramTypes

  datatype CustomOption = CustomOption(name: Pointer, value: Pointer)

  /** The C structure, copied as a whole for the backup. */
  datatype Config = Config(
    executable: Pointer, arguments: Pointer, environment: Pointer, workingDirectory: Pointer,
    stdin: Redirection, stdinFileName: Pointer,
    stdout: Redirection, stdoutFileName: Pointer,
    stderr: Redirection, stderrFileName: Pointer,
    startMode: StartMode, continueAfterError: bool, startInterval: nat, startFields: Pointer,
    customOptions: seq<CustomOption>)

  ghost function Locked(p: Pointer): multiset<Hold> { multiset{Hold(p, true)} }

  ghost function LockedIf(c: bool, p: Pointer): multiset<Hold> { if c then Locked(p) else multiset{} }

  ghost function OptionPins(options: seq<CustomOption>): multiset<Hold> {
    if options == [] then multiset{}
    else Locked(options[0].name) + Locked(options[0].value) + OptionPins(options[1..])
  }

  ghost function CommandPins(c: Config): multiset<Hold> {
    Locked(c.executable) + Locked(c.arguments) + Locked(c.environment) + Locked(c.workingDirectory)
  }

  ghost function StdioPins(c: Config): multiset<Hold> {
    LockedIf(c.stdin.File?, c.stdinFileName) + LockedIf(c.stdout.File?, c.stdoutFileName)
      + LockedIf(c.stderr.File?, c.stderrFileName)
  }

  ghost function SchedulePins(c: Config): multiset<Hold> {
    LockedIf(c.startMode.Cron?, c.startFields)
  }

  /** Every reference a configuration keeps. */
  ghost function ConfigPins(c: Config): multiset<Hold> {
    CommandPins(c) + StdioPins(c) + SchedulePins(c) + OptionPins(c.customOptions)
  }

  lemma SwapPart(rest: multiset<Hold>, a: multiset<Hold>, b: multiset<Hold>)
    ensures a <= rest + a + b && rest + a + b - a == rest + b
  {
  }

  lemma SubtractParts(pins: multiset<Hold>, a: multiset<Hold>, b: multiset<Hold>, c: multiset<Hold>)
    requires a + b + c <= pins
    ensures a <= pins && b <= pins - a && c <= pins - a - b
    ensures pins - a - b - c == pins - (a + b + c)
  {
  }

  lemma SubtractTwo(pins: multiset<Hold>, a: multiset<Hold>, b: multiset<Hold>)
    requires a + b <= pins
    ensures a <= pins && b <= pins - a && pins - a - b == pins - (a + b)
  {
  }

  /** Replacing the part of the configuration that one update is about. */
  lemma SwapSchedule(others: multiset<Hold>, c: Config, d: Config)
    requires d == c.(startMode := d.startMode, continueAfterError := d.continueAfterError,
                     startInterval := d.startInterval, startFields := d.startFields)
    ensures SchedulePins(c) <= others + ConfigPins(c) + SchedulePins(d)
    ensures others + ConfigPins(c) + SchedulePins(d) - SchedulePins(c) == others + ConfigPins(d)
  {
    assert CommandPins(d) == CommandPins(c) && StdioPins(d) == StdioPins(c);
    hide CommandPins, StdioPins, SchedulePins, OptionPins;
    var rest := others + CommandPins(c) + StdioPins(c) + OptionPins(c.customOptions);
    assert others + ConfigPins(c) == rest + SchedulePins(c);
    assert others + ConfigPins(d) == rest + SchedulePins(d);
    SwapPart(rest, SchedulePins(c), SchedulePins(d));
  }

  lemma SwapStdio(others: multiset<Hold>, c: Config, d: Config)
    requires d == c.(stdin := d.stdin, stdinFileName := d.stdinFileName, stdout := d.stdout,
                     stdoutFileName := d.stdoutFileName, stderr := d.stderr, stderrFileName := d.stderrFileName)
    ensures StdioPins(c) <= others + ConfigPins(c) + StdioPins(d)
    ensures others + ConfigPins(c) + StdioPins(d) - StdioPins(c) == others + ConfigPins(d)
  {
    assert CommandPins(d) == CommandPins(c) && SchedulePins(d) == SchedulePins(c);
    hide CommandPins, StdioPins, SchedulePins, OptionPins;
    var rest := others + CommandPins(c) + SchedulePins(c) + OptionPins(c.customOptions);
    assert others + ConfigPins(c) == rest + StdioPins(c);
    assert others + ConfigPins(d) == rest + StdioPins(d);
    SwapPart(rest, StdioPins(c), StdioPins(d));
  }

  lemma SwapCommand(others: multiset<Hold>, c: Config, d: Config)
    requires d == c.(executable := d.executable, arguments := d.arguments, environment := d.environment,
                     workingDirectory := d.workingDirectory)
    ensures CommandPins(c) <= others + ConfigPins(c) + CommandPins(d)
    ensures others + ConfigPins(c) + CommandPins(d) - CommandPins(c) == others + ConfigPins(d)
  {
    assert StdioPins(d) == StdioPins(c) && SchedulePins(d) == SchedulePins(c);
    hide CommandPins, StdioPins, SchedulePins, OptionPins;
    var rest := others + StdioPins(c) + SchedulePins(c) + OptionPins(c.customOptions);
    assert others + ConfigPins(c) == rest + CommandPins(c);
    assert others + ConfigPins(d) == rest + CommandPins(d);
    SwapPart(rest, CommandPins(c), CommandPins(d));
  }

  ghost function ThreePins(c: Config): multiset<Hold> {
    Locked(c.executable) + Locked(c.arguments) + Locked(c.environment)
  }

  lemma WithDirectory(pins: multiset<Hold>, c: Config, p: Pointer)
    ensures pins + ThreePins(c) + Locked(p) == pins + CommandPins(c.(workingDirectory := p))
  {
  }

  lemma LeakedPins(pins: multiset<Hold>, others: multiset<Hold>, c: Config, three: multiset<Hold>, p: Pointer)
    requires pins == others + ConfigPins(c)
    ensures three <= pins + three + Locked(p)
    ensures pins + three + Locked(p) - three == (others + Locked(p)) + ConfigPins(c) != pins
  {
    hide ConfigPins;
    SwapPart(pins + Locked(p), three, multiset{});
    assert (pins + Locked(p))[Hold(p, true)] == pins[Hold(p, true)] + 1;
  }

  lemma CommandSplits(c: Config)
    ensures CommandPins(c) == ThreePins(c) + Locked(c.workingDirectory)
  {
  }
}
