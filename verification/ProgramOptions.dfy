/** Custom options as a map from case-insensitive names to values (program.c, conf_file). */
module ProgramOptions {
  import opened Wrappers
  import opened ObjectGraph
  import opened RequestEffects
  import opened ProgramTypes
  import opened ProgramPins

  /** The name of an option as lookups compare it. */
  function Key(objects: Objects, o: CustomOption): string {
    if o.name in objects then Folded(objects[o.name].text) else ""
  }

  /** What a lookup under a name finds: the value of the first option with that name. A
      configuration file may say several options with one name. */
  ghost function ValueFor(objects: Objects, options: seq<CustomOption>, key: string): Option<Pointer> {
    if options == [] then None
    else if Key(objects, options[0]) == key then Some(options[0].value)
    else ValueFor(objects, options[1..], key)
  }

  lemma {:induction false} ValueInBoth(objects: Objects, a: seq<CustomOption>, b: seq<CustomOption>, key: string)
    ensures ValueFor(objects, a + b, key) ==
              if ValueFor(objects, a, key).Some? then ValueFor(objects, a, key) else ValueFor(objects, b, key)
  {
    if a == [] {
      assert a + b == b;
    } else {
      ValueInBoth(objects, a[1..], b, key);
      assert (a + b)[1..] == a[1..] + b;
    }
  }

  lemma {:induction false} ValueIfAny(objects: Objects, options: seq<CustomOption>, key: string)
    ensures ValueFor(objects, options, key).Some? <==>
            exists i :: 0 <= i < |options| && Key(objects, options[i]) == key
  {
    if options != [] {
      ValueIfAny(objects, options[1..], key);
      assert forall i | 0 <= i < |options| - 1 :: options[1..][i] == options[i + 1];
      assert forall i | 0 < i < |options| :: options[1..][i - 1] == options[i];
    }
  }

  /** No two options have the same name. */
  ghost predicate NamesDiffer(objects: Objects, options: seq<CustomOption>) {
    forall i, j | 0 <= i < j < |options| :: Key(objects, options[i]) != Key(objects, options[j])
  }

  /** Option i is the one that a lookup finds. */
  ghost predicate IsFirst(objects: Objects, options: seq<CustomOption>, i: nat, key: string) {
    i < |options| && Key(objects, options[i]) == key && ValueFor(objects, options[..i], key).None?
  }

  lemma FirstIsUnique(objects: Objects, options: seq<CustomOption>, i: nat, j: nat, key: string)
    requires IsFirst(objects, options, i, key) && IsFirst(objects, options, j, key)
    ensures i == j
  {
    ValueIfAny(objects, options[..i], key);
    ValueIfAny(objects, options[..j], key);
    assert forall k | 0 <= k < i :: options[..i][k] == options[k];
    assert forall k | 0 <= k < j :: options[..j][k] == options[k];
  }

  /** What a lookup finds when option i is passed over. */
  ghost function Next(objects: Objects, options: seq<CustomOption>, i: nat): Option<Pointer>
    requires i < |options|
  {
    ValueFor(objects, options[i + 1..], Key(objects, options[i]))
  }

  lemma NoNext(objects: Objects, options: seq<CustomOption>, i: nat)
    requires NamesDiffer(objects, options) && i < |options|
    ensures Next(objects, options, i).None?
    ensures (forall k | i < k < |options| :: options[k] == options[i]) <==> i == |options| - 1
  {
    var rest := options[i + 1..];
    ValueIfAny(objects, rest, Key(objects, options[i]));
    assert forall k | 0 <= k < |rest| :: rest[k] == options[i + 1 + k];
  }

  function WithoutOption(options: seq<CustomOption>, i: nat): (r: seq<CustomOption>)
    requires i < |options|
    ensures |r| == |options| - 1
    ensures forall k | 0 <= k < |r| :: r[k] == if k < i then options[k] else options[k + 1]
  {
    options[..i] + options[i + 1..]
  }

  function ReplacedOption(options: seq<CustomOption>, i: nat, value: Pointer): (r: seq<CustomOption>)
    requires i < |options|
  {
    options[i := CustomOption(options[i].name, value)]
  }

  lemma RestoredOption(options: seq<CustomOption>, i: nat, value: Pointer)
    requires i < |options|
    ensures |ReplacedOption(options, i, value)| == |options|
            && ReplacedOption(options, i, value)[i := options[i]] == options
  {
  }

  // ----- the references of the options -----

  lemma Regroup(a: multiset<Hold>, b: multiset<Hold>, c: multiset<Hold>)
    ensures a + (b + c) == (a + b) + c
    ensures a + b + c == a + c + b
  {
  }

  lemma {:induction false} OptionPinsConcat(a: seq<CustomOption>, b: seq<CustomOption>)
    ensures OptionPins(a + b) == OptionPins(a) + OptionPins(b)
  {
    hide Locked;
    if a == [] {
      assert a + b == b;
      hide OptionPins;
      assert OptionPins(a) == multiset{};
    } else {
      OptionPinsConcat(a[1..], b);
      assert (a + b)[1..] == a[1..] + b;
      assert (a + b)[0] == a[0];
      var first := Locked(a[0].name) + Locked(a[0].value);
      assert OptionPins(a) == first + OptionPins(a[1..]) && OptionPins(a + b) == first + OptionPins(a[1..] + b);
      hide OptionPins;
      Regroup(first, OptionPins(a[1..]), OptionPins(b));
    }
  }

  lemma OptionPinsOf(o: CustomOption)
    ensures OptionPins([o]) == Locked(o.name) + Locked(o.value)
  {
    assert OptionPins([o][1..]) == multiset{};
  }

  lemma OptionPinsAt(options: seq<CustomOption>, i: nat)
    requires i < |options|
    ensures OptionPins(options) ==
              OptionPins(WithoutOption(options, i)) + (Locked(options[i].name) + Locked(options[i].value))
  {
    hide OptionPins, Locked;
    var before, after := options[..i], options[i + 1..];
    OptionPinsConcat(before, after);
    OptionPinsConcat(before, [options[i]]);
    OptionPinsConcat(before + [options[i]], after);
    OptionPinsOf(options[i]);
    assert options == before + [options[i]] + after;
    Regroup(OptionPins(before), OptionPins([options[i]]), OptionPins(after));
  }

  lemma NamesArePinned(options: seq<CustomOption>, i: nat)
    requires i < |options|
    ensures Hold(options[i].name, true) in OptionPins(options)
    ensures Hold(options[i].value, true) in OptionPins(options)
  {
    OptionPinsAt(options, i);
  }

  lemma NameStays(s: State, t: State, options: seq<CustomOption>, i: nat)
    requires Inv(t) && Touched(s, t) && OptionPins(options) <= t.pins && i < |options|
    ensures options[i].name in t.objects && Key(t.objects, options[i]) == Key(s.objects, options[i])
  {
    hide InvBut, OptionPins;
    NamesArePinned(options, i);
    PinIsLive(t, Hold(options[i].name, true));
  }

  /** The names of options are locked strings, so no update changes what the options say. */
  lemma NamesStay(s: State, t: State, options: seq<CustomOption>)
    requires Inv(t) && Touched(s, t) && OptionPins(options) <= t.pins
    ensures forall i: nat | i < |options| ::
              options[i].name in t.objects && Key(t.objects, options[i]) == Key(s.objects, options[i])
    ensures NamesDiffer(s.objects, options) == NamesDiffer(t.objects, options)
    ensures forall key :: ValueFor(t.objects, options, key) == ValueFor(s.objects, options, key)
    ensures forall i: nat, key :: IsFirst(t.objects, options, i, key) == IsFirst(s.objects, options, i, key)
  {
    hide InvBut, Touched, Key, ValueFor;
    forall i: nat | i < |options|
      ensures options[i].name in t.objects && Key(t.objects, options[i]) == Key(s.objects, options[i])
    {
      NameStays(s, t, options, i);
    }
    forall key
      ensures ValueFor(t.objects, options, key) == ValueFor(s.objects, options, key)
    {
      SameKeys(s.objects, t.objects, options, key);
    }
    forall i: nat, key | i < |options|
      ensures IsFirst(t.objects, options, i, key) == IsFirst(s.objects, options, i, key)
    {
      SameKeys(s.objects, t.objects, options[..i], key);
    }
  }

  lemma {:induction false} SameKeys(a: Objects, b: Objects, options: seq<CustomOption>, key: string)
    requires forall i: nat | i < |options| :: Key(b, options[i]) == Key(a, options[i])
    ensures ValueFor(b, options, key) == ValueFor(a, options, key)
  {
    if options != [] {
      SameKeys(a, b, options[1..], key);
    }
  }

  // ----- one option added, replaced, removed -----

  /** Only what a lookup under one name finds changes: it is this value, or nothing. */
  ghost predicate OnlyOption(objects: Objects, before: seq<CustomOption>, objects': Objects, after: seq<CustomOption>,
                             key: string, value: Option<Pointer>) {
    forall k :: ValueFor(objects', after, k) == if k == key then value else ValueFor(objects, before, k)
  }

  ghost predicate SameOptions(objects: Objects, before: seq<CustomOption>, objects': Objects,
                              after: seq<CustomOption>) {
    forall k :: ValueFor(objects', after, k) == ValueFor(objects, before, k)
  }

  lemma ValueOfOne(objects: Objects, o: CustomOption, key: string)
    ensures ValueFor(objects, [o], key) == if Key(objects, o) == key then Some(o.value) else None
  {
    assert [o][1..] == [];
  }

  lemma Appending(objects: Objects, options: seq<CustomOption>, o: CustomOption)
    requires ValueFor(objects, options, Key(objects, o)).None?
    ensures OnlyOption(objects, options, objects, options + [o], Key(objects, o), Some(o.value))
    ensures NamesDiffer(objects, options) ==> NamesDiffer(objects, options + [o])
  {
    ValueIfAny(objects, options, Key(objects, o));
    hide ValueFor;
    forall k
      ensures ValueFor(objects, options + [o], k) ==
                if k == Key(objects, o) then Some(o.value) else ValueFor(objects, options, k)
    {
      ValueInBoth(objects, options, [o], k);
      ValueOfOne(objects, o, k);
    }
  }

  /** Whatever is found around option i. */
  lemma ValueAround(objects: Objects, options: seq<CustomOption>, i: nat, o: CustomOption, k: string)
    requires i < |options|
    ensures var front, rest := ValueFor(objects, options[..i], k), ValueFor(objects, options[i + 1..], k);
            && ValueFor(objects, options[i := o], k) ==
                 (if front.Some? then front else if Key(objects, o) == k then Some(o.value) else rest)
            && ValueFor(objects, WithoutOption(options, i), k) == (if front.Some? then front else rest)
  {
    ValueInBoth(objects, options[..i], options[i + 1..], k);
    ValueInBoth(objects, options[..i] + [o], options[i + 1..], k);
    ValueInBoth(objects, options[..i], [o], k);
    ValueOfOne(objects, o, k);
    assert options[i := o] == options[..i] + [o] + options[i + 1..];
  }

  lemma Replacing(objects: Objects, options: seq<CustomOption>, i: nat, value: Pointer, key: string)
    requires IsFirst(objects, options, i, key)
    ensures OnlyOption(objects, options, objects, ReplacedOption(options, i, value), key, Some(value))
    ensures NamesDiffer(objects, options) ==> NamesDiffer(objects, ReplacedOption(options, i, value))
  {
    hide ValueFor;
    var o := CustomOption(options[i].name, value);
    assert Key(objects, o) == key;
    assert options[i := options[i]] == options;
    forall k
      ensures ValueFor(objects, ReplacedOption(options, i, value), k) ==
                if k == key then Some(value) else ValueFor(objects, options, k)
    {
      ValueAround(objects, options, i, o, k);
      ValueAround(objects, options, i, options[i], k);
    }
  }

  /** When an option is removed, another one with the same name comes to light, if there is one. */
  lemma Removing(objects: Objects, options: seq<CustomOption>, i: nat, key: string)
    requires IsFirst(objects, options, i, key)
    ensures OnlyOption(objects, options, objects, WithoutOption(options, i), key, Next(objects, options, i))
    ensures NamesDiffer(objects, options) ==> NamesDiffer(objects, WithoutOption(options, i))
  {
    hide ValueFor;
    assert options[i := options[i]] == options;
    forall k
      ensures ValueFor(objects, WithoutOption(options, i), k) ==
                if k == key then Next(objects, options, i) else ValueFor(objects, options, k)
    {
      ValueAround(objects, options, i, options[i], k);
    }
    var after := WithoutOption(options, i);
    assert forall j | 0 <= j < |after| :: after[j] == options[if j < i then j else j + 1];
  }

  lemma {:induction false} AllTheSame(rest: seq<CustomOption>, o: CustomOption)
    ensures rest + [o] == [o] + rest <==> forall k | 0 <= k < |rest| :: rest[k] == o
  {
    if rest != [] && rest + [o] == [o] + rest {
      assert rest[0] == (rest + [o])[0] == o;
      assert rest[1..] + [o] == (rest + [o])[1..] == ([o] + rest)[1..] == [o] + rest[1..];
      AllTheSame(rest[1..], o);
    }
  }

  /** An option taken out and put back at the end: the order is kept if nothing else follows, and
      so is what the options say, if no other option with this name and another value does. */
  lemma Reappending(objects: Objects, options: seq<CustomOption>, i: nat, key: string)
    requires IsFirst(objects, options, i, key)
    ensures var after := WithoutOption(options, i) + [options[i]];
            && (after == options <==> forall k | i < k < |options| :: options[k] == options[i])
            && (SameOptions(objects, options, objects, after) <==>
                Next(objects, options, i) in {None, Some(options[i].value)})
            && (NamesDiffer(objects, options) ==> NamesDiffer(objects, after))
    ensures SameOptions(objects, options, objects, WithoutOption(options, i)) <==>
            Next(objects, options, i) == Some(options[i].value)
  {
    var o, rest, without := options[i], options[i + 1..], WithoutOption(options, i);
    OrderKept(options, i);
    hide ValueFor, NamesDiffer;
    assert options[i := o] == options;
    ValueAround(objects, options, i, o, key);
    Removing(objects, options, i, key);
    forall k
      ensures ValueFor(objects, without + [o], k) ==
                if k == key then (if Next(objects, options, i).Some? then Next(objects, options, i) else Some(o.value))
                else ValueFor(objects, options, k)
    {
      ValueInBoth(objects, without, [o], k);
      ValueOfOne(objects, o, k);
    }
    assert ValueFor(objects, options, key) == Some(o.value);
    DifferAgain(objects, options, i);
  }

  lemma OrderKept(options: seq<CustomOption>, i: nat)
    requires i < |options|
    ensures WithoutOption(options, i) + [options[i]] == options <==>
              forall k | i < k < |options| :: options[k] == options[i]
  {
    var o, front, rest := options[i], options[..i], options[i + 1..];
    var after := WithoutOption(options, i) + [o];
    AllTheSame(rest, o);
    assert after[i..] == rest + [o] && options[i..] == [o] + rest;
    assert after == front + after[i..] && options == front + options[i..];
    assert forall k | 0 <= k < |rest| :: rest[k] == options[i + 1 + k];
  }

  lemma DifferAgain(objects: Objects, options: seq<CustomOption>, i: nat)
    requires i < |options|
    ensures NamesDiffer(objects, options) ==> NamesDiffer(objects, WithoutOption(options, i) + [options[i]])
  {
    hide Key;
    var after := WithoutOption(options, i) + [options[i]];
    assert forall j | 0 <= j < |after| ::
             after[j] == options[if j == |after| - 1 then i else if j < i then j else j + 1];
  }

  // ----- the same, seen from the state before the update -----

  lemma AppendingTo(s: State, t: State, options: seq<CustomOption>, o: CustomOption)
    requires Inv(t) && Touched(s, t) && OptionPins(options + [o]) <= t.pins && o.name in s.objects
    requires ValueFor(s.objects, options, Key(s.objects, o)).None?
    ensures NamesDiffer(s.objects, options) ==> NamesDiffer(t.objects, options + [o])
    ensures OnlyOption(s.objects, options, t.objects, options + [o], Key(s.objects, o), Some(o.value))
  {
    hide InvBut, Touched, NamesDiffer, ValueFor, OptionPins;
    Appending(s.objects, options, o);
    NamesStay(s, t, options + [o]);
  }

  lemma ReplacingIn(s: State, t: State, options: seq<CustomOption>, i: nat, value: Pointer, key: string)
    requires IsFirst(s.objects, options, i, key)
    requires Inv(t) && Touched(s, t) && OptionPins(ReplacedOption(options, i, value)) <= t.pins
    ensures NamesDiffer(s.objects, options) ==> NamesDiffer(t.objects, ReplacedOption(options, i, value))
    ensures OnlyOption(s.objects, options, t.objects, ReplacedOption(options, i, value), key, Some(value))
  {
    hide InvBut, Touched, NamesDiffer, ValueFor, OptionPins, ReplacedOption;
    Replacing(s.objects, options, i, value, key);
    NamesStay(s, t, ReplacedOption(options, i, value));
  }

  lemma RemovingFrom(s: State, t: State, options: seq<CustomOption>, i: nat, key: string)
    requires IsFirst(s.objects, options, i, key)
    requires Inv(t) && Touched(s, t) && OptionPins(WithoutOption(options, i)) <= t.pins
    ensures NamesDiffer(s.objects, options) ==> NamesDiffer(t.objects, WithoutOption(options, i))
    ensures OnlyOption(s.objects, options, t.objects, WithoutOption(options, i), key, Next(s.objects, options, i))
  {
    hide InvBut, Touched, NamesDiffer, ValueFor, OptionPins, WithoutOption, Next;
    Removing(s.objects, options, i, key);
    NamesStay(s, t, WithoutOption(options, i));
  }

  // ----- the references of the whole configuration -----

  lemma PinsAfterAppend(others: multiset<Hold>, c: Config, o: CustomOption)
    ensures others + ConfigPins(c.(customOptions := c.customOptions + [o])) ==
              others + ConfigPins(c) + Locked(o.value) + Locked(o.name)
  {
    var d := c.(customOptions := c.customOptions + [o]);
    assert CommandPins(d) == CommandPins(c) && StdioPins(d) == StdioPins(c) && SchedulePins(d) == SchedulePins(c);
    hide CommandPins, StdioPins, SchedulePins, OptionPins, Locked;
    OptionPinsConcat(c.customOptions, [o]);
    OptionPinsOf(o);
    var rest := CommandPins(c) + StdioPins(c) + SchedulePins(c);
    Regroup(others + rest, OptionPins(c.customOptions), Locked(o.name) + Locked(o.value));
  }

  lemma PinsWithout(c: Config, i: nat)
    requires i < |c.customOptions|
    ensures ConfigPins(c) == ConfigPins(c.(customOptions := WithoutOption(c.customOptions, i)))
                             + (Locked(c.customOptions[i].name) + Locked(c.customOptions[i].value))
  {
    var d := c.(customOptions := WithoutOption(c.customOptions, i));
    assert CommandPins(d) == CommandPins(c) && StdioPins(d) == StdioPins(c) && SchedulePins(d) == SchedulePins(c);
    hide CommandPins, StdioPins, SchedulePins, OptionPins, Locked, WithoutOption;
    OptionPinsAt(c.customOptions, i);
  }

  lemma PinsAfterReappend(c: Config, i: nat)
    requires i < |c.customOptions|
    ensures ConfigPins(c.(customOptions := WithoutOption(c.customOptions, i) + [c.customOptions[i]])) == ConfigPins(c)
  {
    hide ConfigPins, Locked, WithoutOption;
    PinsWithout(c, i);
    var o, d := c.customOptions[i], c.(customOptions := WithoutOption(c.customOptions, i));
    PinsAfterAppend(multiset{}, d, o);
    assert d.(customOptions := d.customOptions + [o]) == c.(customOptions := WithoutOption(c.customOptions, i) + [o]);
    Regroup(ConfigPins(d), Locked(o.name), Locked(o.value));
    assert forall m: multiset<Hold> :: multiset{} + m == m;
  }

  lemma PinsAfterReplace(others: multiset<Hold>, c: Config, i: nat, value: Pointer)
    requires i < |c.customOptions|
    ensures Locked(c.customOptions[i].value) <= others + ConfigPins(c) + Locked(value)
    ensures others + ConfigPins(c) + Locked(value) - Locked(c.customOptions[i].value)
            == others + ConfigPins(c.(customOptions := ReplacedOption(c.customOptions, i, value)))
  {
    var o := c.customOptions[i];
    var d := c.(customOptions := ReplacedOption(c.customOptions, i, value));
    assert WithoutOption(c.customOptions, i) == WithoutOption(d.customOptions, i);
    PinsWithout(c, i);
    PinsWithout(d, i);
    var rest := ConfigPins(c.(customOptions := WithoutOption(c.customOptions, i)));
    assert ConfigPins(c) == rest + (Locked(o.name) + Locked(o.value));
    assert ConfigPins(d) == rest + (Locked(o.name) + Locked(value)) by {
      assert d.customOptions[i].name == o.name && d.customOptions[i].value == value;
    }
    hide ConfigPins, Locked, WithoutOption;
    SwapValue(others, rest, Locked(o.name), Locked(o.value), Locked(value));
  }

  lemma SwapValue(others: multiset<Hold>, rest: multiset<Hold>, name: multiset<Hold>, a: multiset<Hold>,
                  b: multiset<Hold>)
    ensures a <= others + (rest + (name + a)) + b
    ensures others + (rest + (name + a)) + b - a == others + (rest + (name + b))
  {
  }

  lemma OptionPinsWithin(others: multiset<Hold>, c: Config)
    ensures OptionPins(c.customOptions) <= others + ConfigPins(c)
  {
    hide CommandPins, StdioPins, SchedulePins, OptionPins;
    assert ConfigPins(c) == CommandPins(c) + StdioPins(c) + SchedulePins(c) + OptionPins(c.customOptions);
  }
}
