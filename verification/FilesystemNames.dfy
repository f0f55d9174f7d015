/** The names of the working directory and of the files for stdin, stdout and stderr, which a
    scheduler makes as strings and stores for its processes
    (program_scheduler_prepare_filesystem). */
module FilesystemNames {
  import opened Wrappers
  import opened ObjectGraph
  import opened GraphTheorems
  import opened RequestEffects
  import opened Inventory
  import Scheduling

  /** What string_asprintf gets: memory for the text and the string, and a slot in the table. */
  datatype StringAnswer = StringAnswer(address: Pointer, memory: bool, slot: bool) {
    /** It works if there is an identifier left beside those of so many objects, too. */
    predicate Works(objects: nat) { memory && slot && objects < OBJECT_ID_MAX }
  }

  datatype Answers = Answers(working: StringAnswer, workingDirectory: bool, stdin: StringAnswer,
                             stdout: StringAnswer, stdoutDirectory: bool,
                             stderr: StringAnswer, stderrDirectory: bool) {
    function Of(k: nat): StringAnswer { if k == 0 then stdin else if k == 1 then stdout else stderr }
  }

  /** The texts of the names; a stream that is not redirected to a file has none. */
  datatype Plan = Plan(working: string, stdin: Option<string>, stdout: Option<string>, stderr: Option<string>) {
    function Text(k: nat): Option<string> { if k == 0 then stdin else if k == 1 then stdout else stderr }

    /** The working directory and the first k files. */
    function Part(k: nat): Plan {
      Plan(working, if k > 0 then stdin else None, if k > 1 then stdout else None, if k > 2 then stderr else None)
    }

    function Count(): nat { 1 + One(stdin.Some?) + One(stdout.Some?) + One(stderr.Some?) }
  }

  datatype Names = Names(working: Option<Pointer>, stdin: Option<Pointer>, stdout: Option<Pointer>,
                         stderr: Option<Pointer>) {
    predicate Has(p: Pointer) { working == Some(p) || stdin == Some(p) || stdout == Some(p) || stderr == Some(p) }
  }

  const NO_NAMES := Names(None, None, None, None)

  /** The call that fails, if one does. */
  datatype Stage =
    | NoWorking | NoWorkingDirectory | NoStdin | NoStdout | NoStdoutDirectory | NoStderr | NoStderrDirectory
    | Stored
  {
    /** What program_scheduler_update takes for a success. */
    predicate Success() { Stored? || NoStderrDirectory? }
  }

  function One(b: bool): nat { if b then 1 else 0 }

  /** The first call that fails, when there are n objects before. */
  function StageOf(n: nat, plan: Plan, a: Answers): Stage {
    var n1 := n + 1;
    var n2 := n1 + One(plan.stdin.Some?);
    var n3 := n2 + One(plan.stdout.Some?);
    if !a.working.Works(n) then NoWorking
    else if !a.workingDirectory then NoWorkingDirectory
    else if plan.stdin.Some? && !a.stdin.Works(n1) then NoStdin
    else if plan.stdout.Some? && !a.stdout.Works(n2) then NoStdout
    else if plan.stdout.Some? && !a.stdoutDirectory then NoStdoutDirectory
    else if plan.stderr.Some? && !a.stderr.Works(n3) then NoStderr
    else if plan.stderr.Some? && !a.stderrDirectory then NoStderrDirectory
    else Stored
  }

  function If(text: Option<string>, p: Pointer): Option<Pointer> { if text.Some? then Some(p) else None }

  /** The names that are made when every call works. */
  function NamesOf(plan: Plan, a: Answers): Names {
    Names(Some(a.working.address), If(plan.stdin, a.stdin.address), If(plan.stdout, a.stdout.address),
          If(plan.stderr, a.stderr.address))
  }

  ghost function PinOf(name: Option<Pointer>): multiset<Hold> {
    if name.Some? then multiset{Hold(name.value, true)} else multiset{}
  }

  ghost function PinsOf(n: Names): multiset<Hold> {
    PinOf(n.working) + PinOf(n.stdin) + PinOf(n.stdout) + PinOf(n.stderr)
  }

  ghost predicate Says(objects: Objects, name: Option<Pointer>, text: Option<string>) {
    && (name.Some? <==> text.Some?)
    && (name.Some? ==> name.value in objects && objects[name.value].text == text.value)
  }

  /** The strings exist and have the texts. */
  ghost predicate AllSay(objects: Objects, n: Names, plan: Plan) {
    && Says(objects, n.working, Some(plan.working)) && Says(objects, n.stdin, plan.stdin)
    && Says(objects, n.stdout, plan.stdout) && Says(objects, n.stderr, plan.stderr)
  }

  /** The addresses are free, and different. */
  ghost predicate Free(objects: Objects, a: Answers) {
    && a.working.address !in objects && a.stdin.address !in objects
    && a.stdout.address !in objects && a.stderr.address !in objects
    && a.working.address != a.stdin.address && a.working.address != a.stdout.address
    && a.working.address != a.stderr.address && a.stdin.address != a.stdout.address
    && a.stdin.address != a.stderr.address && a.stdout.address != a.stderr.address
  }

  // ----- states that differ by new strings -----

  /** Nothing but counts changed, and only strings were added. */
  ghost predicate Extended(s: State, t: State) {
    && t.sessions == s.sessions && t.references == s.references
    && forall p | p in t.objects ::
         if p in s.objects then SameButCounts(s.objects[p], t.objects[p])
         else t.objects[p].kind.StringKind? && t.objects[p].holds == []
  }

  lemma ExtendedItself(s: State)
    ensures Extended(s, s)
  {
  }

  lemma ExtendedThenTouched(s: State, t: State, u: State)
    requires Extended(s, t) && Touched(t, u)
    ensures Extended(s, u)
  {
  }

  /** Strings that nobody refers to any more are gone, and everything is as before. */
  lemma NewOnesGone(s: State, t: State)
    requires Inv(s) && Inv(t) && Extended(s, t) && t.pins == s.pins
    ensures t == s
  {
    hide InvBut, Roots;
    LiveIsClosed(s);
    forall p | p in t.objects
      ensures p in s.objects
    {
      StillOld(s, t, p);
    }
    assert Touched(s, t);
    GivenBack(s, t);
  }

  lemma StillOld(s: State, t: State, p: Pointer)
    requires Inv(s) && Inv(t) && Extended(s, t) && t.pins == s.pins && p in t.objects
    ensures p in s.objects
  {
    hide InvBut;
    LiveIsClosed(s);
    var root, q := SomeoneHolds(t, p);
    assert Roots(t, {}) == Roots(s, {});
    assert !root ==> Contains(s.objects, q, p);
  }

  // ----- making and releasing -----

  class StoredNames {
    const inventory: Inventory
    var stored: Names
    ghost var others: multiset<Hold>   // pins that are not those of the stored names

    /** Every stored name has one locked reference. */
    ghost predicate Valid()
      reads this, inventory
    {
      inventory.Valid() && inventory.pins == others + PinsOf(stored)
    }

    constructor (inventory: Inventory)
      requires inventory.Valid()
      ensures Valid() && this.inventory == inventory && stored == NO_NAMES && others == inventory.pins
    {
      hide InvBut;
      this.inventory, stored, others := inventory, NO_NAMES, inventory.pins;
    }

    /** string_asprintf, for an internal and locked string. */
    method Make(text: string, a: StringAnswer, ghost s: State) returns (made: bool)
      requires inventory.Valid() && a.address !in inventory.objects && a.address !in s.objects
      requires Extended(s, inventory.View())
      modifies inventory
      ensures inventory.Valid() && Extended(s, inventory.View())
      ensures made <==> a.Works(|old(inventory.objects)|)
      ensures if made then
                && a.address in inventory.objects && inventory.objects[a.address].text == text
                && inventory.objects == old(inventory.objects)[a.address := inventory.objects[a.address]]
                && |inventory.objects| == |old(inventory.objects)| + 1
                && inventory.pins == old(inventory.pins) + multiset{Hold(a.address, true)}
              else inventory.View() == old(inventory.View())
    {
      hide InvBut, AllIdsUsed;
      Exhaustion(inventory.View());
      if !a.memory {
        return false;
      }
      var e := inventory.CreateObject(StringKind, text, CreateFlags(true, false, true), None, a.address, 0, true,
                                      a.slot);
      made := e.Success?;
    }

    lemma Exhaustion(s: State)
      requires Inv(s)
      ensures AllIdsUsed(s.objects) <==> |s.objects| >= OBJECT_ID_MAX
    {
      hide Counted, RingsOk, Acyclic, InUse;
      OutOfIds(s);
    }

    /** string_unlock_and_release. */
    method Release(name: Option<Pointer>, ghost s: State)
      requires inventory.Valid() && PinOf(name) <= inventory.pins && Extended(s, inventory.View())
      modifies inventory
      ensures inventory.Valid() && Extended(s, inventory.View()) && Touched(old(inventory.View()), inventory.View())
      ensures inventory.pins == old(inventory.pins) - PinOf(name)
    {
      hide InvBut, Extended, Touched;
      TouchedNothing(inventory.View());
      if name.Some? {
        ghost var t := inventory.View();
        assert Hold(name.value, true) in PinOf(name);
        inventory.UnlockAndRelease(name.value);
        ExtendedThenTouched(s, t, inventory.View());
      }
    }

    // ----- program_scheduler_prepare_filesystem -----

    /** program_scheduler_prepare_filesystem, without what it does to the scheduler. When the
        working directory cannot be made, its name is released twice, and the second time there is
        nothing left to release (fault). When only the directory for stderr cannot be made, the new
        names belong to nobody. In all other cases the names are stored and replace the old ones,
        or everything is as before. */
    method Prepare(plan: Plan, a: Answers) returns (stage: Stage, fault: bool)
      requires Valid() && Free(inventory.objects, a)
      modifies this`stored, this`others, inventory
      ensures Valid() && Extended(old(inventory.View()), inventory.View())
      ensures var n0 := |old(inventory.objects)|;
              var n1 := n0 + 1;
              var n2 := if plan.stdin.Some? then n1 + 1 else n1;
              var n3 := if plan.stdout.Some? then n2 + 1 else n2;
              stage == if !a.working.Works(n0) then NoWorking
                       else if !a.workingDirectory then NoWorkingDirectory
                       else if plan.stdin.Some? && !a.stdin.Works(n1) then NoStdin
                       else if plan.stdout.Some? && !a.stdout.Works(n2) then NoStdout
                       else if plan.stdout.Some? && !a.stdoutDirectory then NoStdoutDirectory
                       else if plan.stderr.Some? && !a.stderr.Works(n3) then NoStderr
                       else if plan.stderr.Some? && !a.stderrDirectory then NoStderrDirectory
                       else Stored
      ensures fault <==> a.working.Works(|old(inventory.objects)|) && !a.workingDirectory
      ensures others == old(others) + if stage.NoStderrDirectory? then PinsOf(NamesOf(plan, a)) else multiset{}
      ensures others != old(others) <==> stage.NoStderrDirectory?
      ensures stored == if stage.Stored? then NamesOf(plan, a) else old(stored)
      ensures stage.Success() ==> AllSay(inventory.objects, NamesOf(plan, a), plan)
      ensures !stage.Success() ==> inventory.View() == old(inventory.View())
    {
      hide Inv, InvBut, Extended, AllSay, PinsOf, SoFar, NamesOf, StageOf;
      ghost var s := inventory.View();
      StageIs(|s.objects|, plan, a);
      ExtendedItself(s);
      fault := false;
      var made := Make(plan.working, a.working, s);
      if !made {
        return NoWorking, fault;
      }
      if !a.workingDirectory {
        Release(Some(a.working.address), s);
        OnePinLess(s.pins, a.working.address);
        NewOnesGone(s, inventory.View());
        fault := a.working.address !in inventory.objects;
        return NoWorkingDirectory, fault;
      }
      WorkingMade(s, inventory.View(), plan, a);
      stage := PrepareFiles(plan, a, s);
    }

    /** The part behind the working directory. */
    method PrepareFiles(plan: Plan, a: Answers, ghost s: State) returns (stage: Stage)
      requires inventory.Valid() && Inv(s) && s.pins == others + PinsOf(stored) && Free(s.objects, a)
      requires SoFar(s, inventory.View(), plan.Part(0), a) && a.working.Works(|s.objects|) && a.workingDirectory
      modifies this`stored, this`others, inventory
      ensures Valid() && Extended(s, inventory.View()) && stage == StageOf(|s.objects|, plan, a)
      ensures others == old(others) + if stage.NoStderrDirectory? then PinsOf(NamesOf(plan, a)) else multiset{}
      ensures others != old(others) <==> stage.NoStderrDirectory?
      ensures stored == if stage.Stored? then NamesOf(plan, a) else old(stored)
      ensures stage.Success() ==> AllSay(inventory.objects, NamesOf(plan, a), plan)
      ensures !stage.Success() ==> inventory.View() == s
    {
      hide Inv, InvBut, Extended, AllSay, PinsOf, SoFar, NamesOf, Free, StageOf;
      stage := MakeFiles(plan, a, s);
      if !stage.Success() {
        NewOnesGone(s, inventory.View());
        return;
      }
      SwapPins(others, PinsOf(stored), PinsOf(NamesOf(plan, a)));
      if stage.NoStderrDirectory? {
        SomePins(others, plan, a);
        others := others + PinsOf(NamesOf(plan, a));
      } else {
        Replace(NamesOf(plan, a), plan, s);
      }
    }

    lemma StageIs(n0: nat, plan: Plan, a: Answers)
      ensures var n1 := n0 + 1;
              var n2 := if plan.stdin.Some? then n1 + 1 else n1;
              var n3 := if plan.stdout.Some? then n2 + 1 else n2;
              StageOf(n0, plan, a) ==
                if !a.working.Works(n0) then NoWorking
                else if !a.workingDirectory then NoWorkingDirectory
                else if plan.stdin.Some? && !a.stdin.Works(n1) then NoStdin
                else if plan.stdout.Some? && !a.stdout.Works(n2) then NoStdout
                else if plan.stdout.Some? && !a.stdoutDirectory then NoStdoutDirectory
                else if plan.stderr.Some? && !a.stderr.Works(n3) then NoStderr
                else if plan.stderr.Some? && !a.stderrDirectory then NoStderrDirectory
                else Stored
    {
    }

    lemma SwapPins(a: multiset<Hold>, b: multiset<Hold>, c: multiset<Hold>)
      ensures a + b + c == a + c + b
    {
    }

    lemma WorkingMade(s: State, t: State, plan: Plan, a: Answers)
      requires Extended(s, t) && a.working.address in t.objects && t.objects[a.working.address].text == plan.working
      requires t.objects == s.objects[a.working.address := t.objects[a.working.address]]
      requires |t.objects| == |s.objects| + 1 && t.pins == s.pins + multiset{Hold(a.working.address, true)}
      ensures SoFar(s, t, plan.Part(0), a)
    {
    }

    lemma SomePins(pins: multiset<Hold>, plan: Plan, a: Answers)
      ensures pins + PinsOf(NamesOf(plan, a)) != pins
    {
      var h := Hold(a.working.address, true);
      assert (pins + PinsOf(NamesOf(plan, a)))[h] > pins[h];
    }

    lemma OnePinLess(pins: multiset<Hold>, p: Pointer)
      ensures pins + multiset{Hold(p, true)} - PinOf(Some(p)) == pins
    {
    }

    /** The names of the files, with the directories they are in; after a failure nothing is left. */
    method MakeFiles(plan: Plan, a: Answers, ghost s: State) returns (stage: Stage)
      requires inventory.Valid() && Free(s.objects, a) && SoFar(s, inventory.View(), plan.Part(0), a)
      requires a.working.Works(|s.objects|) && a.workingDirectory
      modifies inventory
      ensures inventory.Valid() && Extended(s, inventory.View())
      ensures stage == StageOf(|s.objects|, plan, a)
      ensures if stage.Success() then
                inventory.pins == s.pins + PinsOf(NamesOf(plan, a)) && AllSay(inventory.objects, NamesOf(plan, a), plan)
              else inventory.pins == s.pins
    {
      hide Inv, InvBut, Extended, SoFar, PinsOf, AllSay, NamesOf;
      var made := MakeNext(0, plan, a, s);
      if !made {
        CleanUp(0, plan, a, s);
        return NoStdin;
      }
      made := MakeNext(1, plan, a, s);
      if !made {
        CleanUp(1, plan, a, s);
        return NoStdout;
      }
      if plan.stdout.Some? && !a.stdoutDirectory {
        CleanUp(2, plan, a, s);
        return NoStdoutDirectory;
      }
      made := MakeNext(2, plan, a, s);
      if !made {
        CleanUp(2, plan, a, s);
        return NoStderr;
      }
      AllMade(s, inventory.View(), plan, a);
      stage := if plan.stderr.Some? && !a.stderrDirectory then NoStderrDirectory else Stored;
    }

    lemma AllMade(s: State, t: State, plan: Plan, a: Answers)
      requires SoFar(s, t, plan.Part(3), a)
      ensures Extended(s, t) && t.pins == s.pins + PinsOf(NamesOf(plan, a)) && AllSay(t.objects, NamesOf(plan, a), plan)
    {
      assert plan.Part(3) == plan;
    }

    /** The strings of a part of the plan were made since state s, and nothing else. */
    ghost predicate SoFar(s: State, t: State, part: Plan, a: Answers) {
      && Extended(s, t) && AllSay(t.objects, NamesOf(part, a), part)
      && t.pins == s.pins + PinsOf(NamesOf(part, a)) && |t.objects| == |s.objects| + part.Count()
      && forall p | p in t.objects :: p in s.objects || NamesOf(part, a).Has(p)
    }

    /** The name of the next file, if the stream is redirected to one. */
    method MakeNext(k: nat, plan: Plan, a: Answers, ghost s: State) returns (made: bool)
      requires k < 3 && inventory.Valid() && Free(s.objects, a) && SoFar(s, inventory.View(), plan.Part(k), a)
      modifies inventory
      ensures inventory.Valid()
      ensures made <==> plan.Text(k).None? || a.Of(k).Works(|s.objects| + plan.Part(k).Count())
      ensures if made then SoFar(s, inventory.View(), plan.Part(k + 1), a)
              else inventory.View() == old(inventory.View())
    {
      hide InvBut, Extended, SoFar, NamesOf;
      IsExtended(s, inventory.View(), k, plan, a);
      made := true;
      ghost var t := inventory.View();
      if plan.Text(k).Some? {
        made := Make(plan.Text(k).value, a.Of(k), s);
      }
      if made {
        NextMade(s, t, inventory.View(), k, plan, a);
      }
    }

    lemma IsExtended(s: State, t: State, k: nat, plan: Plan, a: Answers)
      requires k < 3 && Free(s.objects, a) && SoFar(s, t, plan.Part(k), a)
      ensures Extended(s, t) && |t.objects| == |s.objects| + plan.Part(k).Count()
      ensures a.Of(k).address !in s.objects && a.Of(k).address !in t.objects
    {
      hide Extended, AllSay, PinsOf;
    }

    lemma NextMade(s: State, t: State, u: State, k: nat, plan: Plan, a: Answers)
      requires k < 3 && Free(s.objects, a) && SoFar(s, t, plan.Part(k), a) && Extended(s, u)
      requires if plan.Text(k).None? then u == t else
                 var p := a.Of(k).address;
                 && p in u.objects && u.objects[p].text == plan.Text(k).value && |u.objects| == |t.objects| + 1
                 && u.objects == t.objects[p := u.objects[p]] && u.pins == t.pins + multiset{Hold(p, true)}
      ensures SoFar(s, u, plan.Part(k + 1), a)
    {
      hide Extended, PinsOf, PinOf;
      if plan.Text(k).None? {
        assert plan.Part(k + 1) == plan.Part(k);
      } else {
        MorePins(NamesOf(plan.Part(k), a), Some(a.Of(k).address));
      }
    }

    lemma MorePins(n: Names, name: Option<Pointer>)
      ensures PinsOf(NO_NAMES) == multiset{} && (name.Some? ==> PinOf(name) == multiset{Hold(name.value, true)})
      ensures n.working == None ==> PinsOf(n.(working := name)) == PinsOf(n) + PinOf(name)
      ensures n.stdin == None ==> PinsOf(n.(stdin := name)) == PinsOf(n) + PinOf(name)
      ensures n.stdout == None ==> PinsOf(n.(stdout := name)) == PinsOf(n) + PinOf(name)
      ensures n.stderr == None ==> PinsOf(n.(stderr := name)) == PinsOf(n) + PinOf(name)
    {
      hide PinOf;
      PinIs(None);
      PinIs(name);
      OneMorePin(PinOf(n.working), PinOf(n.stdin), PinOf(n.stdout), PinOf(n.stderr), PinOf(name));
    }

    lemma OneMorePin(a: multiset<Hold>, b: multiset<Hold>, c: multiset<Hold>, d: multiset<Hold>, x: multiset<Hold>)
      ensures x + b + c + d == (multiset{} + b + c + d) + x && a + x + c + d == (a + multiset{} + c + d) + x
      ensures a + b + x + d == (a + b + multiset{} + d) + x && a + b + c + x == (a + b + c + multiset{}) + x
    {
    }

    /** The cleanup cases, which fall through from the last name made to the first. */
    method CleanUp(k: nat, plan: Plan, a: Answers, ghost s: State)
      requires k < 3 && inventory.Valid() && SoFar(s, inventory.View(), plan.Part(k), a)
      modifies inventory
      ensures inventory.Valid() && Extended(s, inventory.View()) && inventory.pins == s.pins
    {
      hide InvBut, Extended, Touched, PinOf, PinsOf, AllSay;
      var names := NamesOf(plan.Part(k), a);
      PinParts(inventory.pins, s.pins, names);
      Release(names.stdout, s);
      Release(names.stdin, s);
      Release(names.working, s);
    }

    /** The new names are stored, one after the other, and the old ones released. */
    method Replace(names: Names, plan: Plan, ghost s: State)
      requires inventory.Valid() && inventory.pins == others + PinsOf(names) + PinsOf(stored)
      requires Extended(s, inventory.View()) && AllSay(inventory.objects, names, plan)
      modifies this`stored, inventory
      ensures Valid() && stored == names && Extended(s, inventory.View()) && AllSay(inventory.objects, names, plan)
    {
      hide Inv, InvBut, Extended, Touched, PinOf, PinsOf, AllSay, SameButCounts, Leaves;
      ghost var t, rest := inventory.View(), others + PinsOf(names);
      ghost var left := PinsLeft(inventory.pins, rest, stored);
      TouchedNothing(t);
      ReplaceInputs(names, s, t, left);
      ReplaceOutputs(names, s, t, rest);
      StillSay(t, inventory.View(), others, names, plan);
    }

    /** Taking two parts away leaves this. */
    ghost predicate Leaves(pins: multiset<Hold>, a: multiset<Hold>, b: multiset<Hold>, left: multiset<Hold>) {
      a <= pins && b <= pins - a && left == pins - a - b
    }

    lemma PinsLeft(pins: multiset<Hold>, rest: multiset<Hold>, n: Names) returns (left: multiset<Hold>)
      requires pins == rest + PinsOf(n)
      ensures Leaves(pins, PinOf(n.working), PinOf(n.stdin), left)
      ensures Leaves(left, PinOf(n.stdout), PinOf(n.stderr), rest)
    {
      hide PinOf;
      FromFirst(pins, rest, PinOf(n.working), PinOf(n.stdin), PinOf(n.stdout), PinOf(n.stderr));
      left := pins - PinOf(n.working) - PinOf(n.stdin);
    }

    method ReplaceInputs(names: Names, ghost s: State, ghost t: State, ghost left: multiset<Hold>)
      requires inventory.Valid() && Leaves(inventory.pins, PinOf(stored.working), PinOf(stored.stdin), left)
      requires Extended(s, inventory.View()) && Touched(t, inventory.View())
      modifies this`stored, inventory
      ensures inventory.Valid() && Extended(s, inventory.View()) && Touched(t, inventory.View())
      ensures stored == old(stored).(working := names.working, stdin := names.stdin) && inventory.pins == left
    {
      hide InvBut, Extended, Touched, PinOf;
      ghost var u := inventory.View();
      Release(stored.working, s);
      stored := stored.(working := names.working);
      TouchedTransitive(t, u, inventory.View());
      u := inventory.View();
      Release(stored.stdin, s);
      stored := stored.(stdin := names.stdin);
      TouchedTransitive(t, u, inventory.View());
    }

    method ReplaceOutputs(names: Names, ghost s: State, ghost t: State, ghost left: multiset<Hold>)
      requires inventory.Valid() && Leaves(inventory.pins, PinOf(stored.stdout), PinOf(stored.stderr), left)
      requires Extended(s, inventory.View()) && Touched(t, inventory.View())
      modifies this`stored, inventory
      ensures inventory.Valid() && Extended(s, inventory.View()) && Touched(t, inventory.View())
      ensures stored == old(stored).(stdout := names.stdout, stderr := names.stderr) && inventory.pins == left
    {
      hide InvBut, Extended, Touched, PinOf;
      ghost var u := inventory.View();
      Release(stored.stdout, s);
      stored := stored.(stdout := names.stdout);
      TouchedTransitive(t, u, inventory.View());
      u := inventory.View();
      Release(stored.stderr, s);
      stored := stored.(stderr := names.stderr);
      TouchedTransitive(t, u, inventory.View());
    }

    /** Names that are pinned keep their texts. */
    lemma StillSay(t: State, u: State, rest: multiset<Hold>, names: Names, plan: Plan)
      requires Inv(u) && Touched(t, u) && u.pins == rest + PinsOf(names) && AllSay(t.objects, names, plan)
      ensures AllSay(u.objects, names, plan)
    {
      hide InvBut;
      StillSays(t, u, names.working, Some(plan.working));
      StillSays(t, u, names.stdin, plan.stdin);
      StillSays(t, u, names.stdout, plan.stdout);
      StillSays(t, u, names.stderr, plan.stderr);
    }

    lemma StillSays(t: State, u: State, name: Option<Pointer>, text: Option<string>)
      requires Inv(u) && Touched(t, u) && PinOf(name) <= u.pins && Says(t.objects, name, text)
      ensures Says(u.objects, name, text)
    {
      hide InvBut;
      if name.Some? {
        assert Hold(name.value, true) in PinOf(name);
        PinIsLive(u, Hold(name.value, true));
      }
    }

    lemma PinParts(pins: multiset<Hold>, rest: multiset<Hold>, n: Names)
      requires pins == rest + PinsOf(n)
      ensures PinOf(n.stdout) <= pins && PinOf(n.stdin) <= pins - PinOf(n.stdout)
      ensures PinOf(n.working) <= pins - PinOf(n.stdout) - PinOf(n.stdin)
      ensures n.stderr == None ==> pins - PinOf(n.stdout) - PinOf(n.stdin) - PinOf(n.working) == rest
    {
      hide PinOf;
      FromThird(pins, rest, PinOf(n.working), PinOf(n.stdin), PinOf(n.stdout), PinOf(n.stderr));
      PinIs(n.stderr);
    }

    lemma PinIs(name: Option<Pointer>)
      ensures PinOf(name) == if name.Some? then multiset{Hold(name.value, true)} else multiset{}
    {
    }

    lemma FromFirst(pins: multiset<Hold>, rest: multiset<Hold>, a: multiset<Hold>, b: multiset<Hold>,
                    c: multiset<Hold>, d: multiset<Hold>)
      requires pins == rest + (a + b + c + d)
      ensures a <= pins && b <= pins - a && c <= pins - a - b && d <= pins - a - b - c
      ensures pins - a - b - c - d == rest
    {
    }

    lemma FromThird(pins: multiset<Hold>, rest: multiset<Hold>, a: multiset<Hold>, b: multiset<Hold>,
                    c: multiset<Hold>, d: multiset<Hold>)
      requires pins == rest + (a + b + c + d)
      ensures c <= pins && b <= pins - c && a <= pins - c - b
      ensures d == multiset{} ==> pins - c - b - a == rest
    {
    }
  }

  // ----- the scheduler -----

  /** What the scheduler makes of it. */
  function AsPreparation(stage: Stage, handled: Scheduling.Answers): Scheduling.Preparation {
    match stage
    case Stored => Scheduling.Prepared
    case NoStderrDirectory => Scheduling.StderrFails(handled)
    case _ => Scheduling.Refused(handled)
  }

  /** The scheduler knows whether there are names. */
  ghost predicate Linked(names: StoredNames, s: Scheduling.Scheduler)
    reads names, s
  {
    s.names.Missing? <==> names.stored.working.None?
  }

  /** program_scheduler_prepare_filesystem as a whole: the names and the scheduler go together. */
  method PrepareFilesystem(names: StoredNames, s: Scheduling.Scheduler, plan: Plan, a: Answers,
                           handled: Scheduling.Answers)
    returns (ok: bool, stage: Stage, fault: bool)
    requires names.Valid() && Free(names.inventory.objects, a) && Linked(names, s)
    requires s.Consistent() && !s.daemon.recursive
    modifies names`stored, names`others, names.inventory
    modifies s, s.daemon`recursive, s.cron`entries, s.monitor`observers
    ensures names.Valid() && Linked(names, s) && s.Consistent()
    ensures stage == StageOf(|old(names.inventory.objects)|, plan, a) && ok == stage.Success()
    ensures fault <==> stage.NoWorkingDirectory?
    ensures names.others != old(names.others) <==> stage.NoStderrDirectory?
    ensures if stage.Stored? then s.Unmoved(old(s.Now())) && names.stored == NamesOf(plan, a)
            else s.StoppedByError(old(s.Now()), handled) && names.stored == old(names.stored)
  {
    hide InvBut, Extended, AllSay, PinsOf, Scheduling.OnlyLastAlive, Scheduling.Accounted, Scheduling.CronLinked,
         Scheduling.HasEntry, Scheduling.SameEntriesBut, Scheduling.SameBut, Scheduling.Cron.Valid,
         Scheduling.Monitor.Valid;
    stage, fault := names.Prepare(plan, a);
    ok := s.PrepareFilesystem(AsPreparation(stage, handled));
  }
}
