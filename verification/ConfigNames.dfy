/** Names of the options in a configuration file (program_config.c). Option names are looked up
    without regard to case, and can be removed by prefix. */
module ConfigNames {
  import opened Wrappers
  import opened ProgramTypes
  import opened IntegerText

  /** Options with a fixed name. */
  datatype Field =
    | Executable | ArgumentsLength | EnvironmentLength | WorkingDirectory
    | StdinRedirection | StdinFileName | StdoutRedirection | StdoutFileName
    | StderrRedirection | StderrFileName
    | StartMode | ContinueAfterError | StartInterval | StartFields

  function FieldName(f: Field): string {
    match f
    case Executable => "executable"
    case ArgumentsLength => "arguments.length"
    case EnvironmentLength => "environment.length"
    case WorkingDirectory => "working_directory"
    case StdinRedirection => "stdin_redirection"
    case StdinFileName => "stdin_file_name"
    case StdoutRedirection => "stdout_redirection"
    case StdoutFileName => "stdout_file_name"
    case StderrRedirection => "stderr_redirection"
    case StderrFileName => "stderr_file_name"
    case StartMode => "start_mode"
    case ContinueAfterError => "continue_after_error"
    case StartInterval => "start_interval"
    case StartFields => "start_fields"
  }

  const ARGUMENTS := "arguments.item"
  const ENVIRONMENT := "environment.item"
  const CUSTOM := "custom."

  /** strcasecmp finds the names equal. */
  predicate SameName(a: string, b: string) { Folded(a) == Folded(b) }

  /** strncasecmp with the length of the prefix finds them equal. */
  predicate HasPrefix(name: string, prefix: string) {
    |prefix| <= |name| && Folded(name[..|prefix|]) == Folded(prefix)
  }

  function ItemName(prefix: string, i: nat): string { prefix + Digits(i, 10) }

  lemma FoldedAt(a: string, b: string, k: nat)
    requires SameName(a, b)
    ensures |a| == |b| && (k < |a| ==> LowerCase(a[k]) == LowerCase(b[k]))
  {
    assert k < |a| ==> Folded(a)[k] == LowerCase(a[k]) && Folded(b)[k] == LowerCase(b[k]);
  }

  lemma PrefixAt(name: string, prefix: string, k: nat)
    requires HasPrefix(name, prefix) && k < |prefix|
    ensures |prefix| <= |name| && LowerCase(name[k]) == LowerCase(prefix[k])
  {
    FoldedAt(name[..|prefix|], prefix, k);
  }

  lemma PrefixIsFolded(a: string, b: string, prefix: string)
    requires SameName(a, b)
    ensures HasPrefix(a, prefix) == HasPrefix(b, prefix)
  {
    FoldedAt(a, b, 0);
    if |prefix| <= |a| {
      forall k | 0 <= k < |prefix|
        ensures LowerCase(a[k]) == LowerCase(b[k])
      {
        FoldedAt(a, b, k);
      }
      assert Folded(a[..|prefix|]) == Folded(b[..|prefix|]);
    }
  }

  /** Two characters of a name, and its length, tell the fixed names apart. */
  function Mark(f: Field): (nat, char, char) {
    (|FieldName(f)|, LowerCase(FieldName(f)[0]), LowerCase(FieldName(f)[4]))
  }

  lemma FieldsDiffer(f: Field, g: Field)
    requires SameName(FieldName(f), FieldName(g))
    ensures f == g
  {
    FoldedAt(FieldName(f), FieldName(g), 0);
    FoldedAt(FieldName(f), FieldName(g), 4);
    assert Mark(f) == Mark(g);
  }

  // ----- the names of items and of custom options -----

  lemma FieldIsNoItem(f: Field)
    ensures !HasPrefix(FieldName(f), ARGUMENTS) && !HasPrefix(FieldName(f), ENVIRONMENT)
  {
    var name := FieldName(f);
    if HasPrefix(name, ARGUMENTS) {
      PrefixAt(name, ARGUMENTS, 0);
      PrefixAt(name, ARGUMENTS, 10);
    }
    if HasPrefix(name, ENVIRONMENT) {
      PrefixAt(name, ENVIRONMENT, 1);
      PrefixAt(name, ENVIRONMENT, 12);
    }
  }

  lemma FieldIsNotCustom(f: Field)
    ensures !HasPrefix(FieldName(f), CUSTOM)
  {
    var name := FieldName(f);
    if HasPrefix(name, CUSTOM) {
      PrefixAt(name, CUSTOM, 0);
      PrefixAt(name, CUSTOM, 1);
    }
  }

  lemma OwnPrefix(prefix: string, rest: string)
    ensures HasPrefix(prefix + rest, prefix)
  {
    assert (prefix + rest)[..|prefix|] == prefix;
  }

  /** Each of the three prefixes begins with a letter of its own. */
  lemma OtherPrefix(prefix: string, rest: string, other: string)
    requires prefix in {ARGUMENTS, ENVIRONMENT, CUSTOM} && other in {ARGUMENTS, ENVIRONMENT, CUSTOM} && prefix != other
    ensures !HasPrefix(prefix + rest, other)
  {
    if HasPrefix(prefix + rest, other) {
      PrefixAt(prefix + rest, other, 0);
    }
  }

  lemma DifferentByPrefix(a: string, b: string, prefix: string)
    requires HasPrefix(a, prefix) != HasPrefix(b, prefix)
    ensures !SameName(a, b)
  {
    if SameName(a, b) {
      PrefixIsFolded(a, b, prefix);
    }
  }

  /** After the same prefix, names are the same when the rests are. */
  lemma RestIsFolded(prefix: string, a: string, b: string)
    requires HasPrefix(a, prefix) && HasPrefix(b, prefix)
    ensures SameName(a, b) <==> SameName(a[|prefix|..], b[|prefix|..])
  {
    var n := |prefix|;
    assert Folded(a) == Folded(a[..n]) + Folded(a[n..]) && Folded(b) == Folded(b[..n]) + Folded(b[n..]);
    assert Folded(a)[n..] == Folded(a[n..]) && Folded(b)[n..] == Folded(b[n..]);
  }

  lemma SameRest(prefix: string, a: string, b: string)
    ensures SameName(prefix + a, prefix + b) <==> SameName(a, b)
  {
    OwnPrefix(prefix, a);
    OwnPrefix(prefix, b);
    RestIsFolded(prefix, prefix + a, prefix + b);
    assert (prefix + a)[|prefix|..] == a && (prefix + b)[|prefix|..] == b;
  }

  /** Items of one list differ in their numbers. */
  lemma ItemsDiffer(prefix: string, i: nat, j: nat)
    requires SameName(ItemName(prefix, i), ItemName(prefix, j))
    ensures i == j
  {
    var a, b := Digits(i, 10), Digits(j, 10);
    SameRest(prefix, a, b);
    assert Folded(a) == a && Folded(b) == b;
    DigitsDiffer(i, j, 10);
  }

  // ----- symbols -----

  function RedirectionName(r: Redirection): string {
    match r
    case DevNull => "/dev/null"
    case Pipe => "pipe"
    case File => "file"
    case IndividualLog => "individual_log"
    case ContinuousLog => "continuous_log"
    case Stdout => "stdout"
  }

  function ModeName(m: ProgramTypes.StartMode): string {
    match m
    case Never => "never"
    case Always => "always"
    case Interval => "interval"
    case Cron => "cron"
  }

  const REDIRECTIONS := [DevNull, Pipe, File, IndividualLog, ContinuousLog, Stdout]
  const MODES := [Never, Always, Interval, Cron]

  /** enum_get_value: the first symbol of the table with this name. */
  function FirstRedirection(table: seq<Redirection>, text: string): Option<Redirection> {
    if table == [] then None
    else if SameName(text, RedirectionName(table[0])) then Some(table[0])
    else FirstRedirection(table[1..], text)
  }

  function FirstMode(table: seq<ProgramTypes.StartMode>, text: string): Option<ProgramTypes.StartMode> {
    if table == [] then None
    else if SameName(text, ModeName(table[0])) then Some(table[0])
    else FirstMode(table[1..], text)
  }

  lemma RedirectionNamesDiffer(q: Redirection, r: Redirection)
    requires SameName(RedirectionName(q), RedirectionName(r))
    ensures q == r
  {
    FoldedAt(RedirectionName(q), RedirectionName(r), 0);
  }

  lemma ModeNamesDiffer(m: ProgramTypes.StartMode, n: ProgramTypes.StartMode)
    requires SameName(ModeName(m), ModeName(n))
    ensures m == n
  {
    FoldedAt(ModeName(m), ModeName(n), 0);
  }

  /** The symbol that a text is taken for is the one whose name it is. */
  lemma {:induction false} RedirectionRead(table: seq<Redirection>, text: string, r: Redirection)
    requires r in table
    ensures FirstRedirection(table, text) == Some(r) <==> SameName(text, RedirectionName(r))
  {
    hide RedirectionName;
    if SameName(text, RedirectionName(table[0])) {
      if SameName(text, RedirectionName(r)) {
        RedirectionNamesDiffer(r, table[0]);
      }
    } else if r in table[1..] {
      RedirectionRead(table[1..], text, r);
    } else {
      NotRead(table[1..], text, r);
    }
  }

  lemma {:induction false} NotRead(table: seq<Redirection>, text: string, r: Redirection)
    requires r !in table
    ensures FirstRedirection(table, text) != Some(r)
  {
    if table != [] {
      NotRead(table[1..], text, r);
    }
  }

  lemma {:induction false} ModeRead(table: seq<ProgramTypes.StartMode>, text: string, m: ProgramTypes.StartMode)
    requires m in table
    ensures FirstMode(table, text) == Some(m) <==> SameName(text, ModeName(m))
  {
    hide ModeName;
    if SameName(text, ModeName(table[0])) {
      if SameName(text, ModeName(m)) {
        ModeNamesDiffer(m, table[0]);
      }
    } else if m in table[1..] {
      ModeRead(table[1..], text, m);
    } else {
      ModeNotRead(table[1..], text, m);
    }
  }

  lemma {:induction false} ModeNotRead(table: seq<ProgramTypes.StartMode>, text: string, m: ProgramTypes.StartMode)
    requires m !in table
    ensures FirstMode(table, text) != Some(m)
  {
    if table != [] {
      ModeNotRead(table[1..], text, m);
    }
  }

  /** Every symbol is read back as itself. */
  lemma SymbolsRoundTrip(r: Redirection, m: ProgramTypes.StartMode)
    ensures FirstRedirection(REDIRECTIONS, RedirectionName(r)) == Some(r)
    ensures FirstMode(MODES, ModeName(m)) == Some(m)
  {
    assert r in REDIRECTIONS by {
      assert REDIRECTIONS[0] == DevNull && REDIRECTIONS[1] == Pipe && REDIRECTIONS[2] == File
          && REDIRECTIONS[3] == IndividualLog && REDIRECTIONS[4] == ContinuousLog && REDIRECTIONS[5] == Stdout;
    }
    assert m in MODES by {
      assert MODES[0] == Never && MODES[1] == Always && MODES[2] == Interval && MODES[3] == Cron;
    }
    RedirectionRead(REDIRECTIONS, RedirectionName(r), r);
    ModeRead(MODES, ModeName(m), m);
  }
}
