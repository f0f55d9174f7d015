/** The references of a process object (process.c): process_spawn takes seven of them one after
    the other and hands them to the new object, or gives back those it has taken; process_destroy
    gives all of them up. */
module ProcessSpawn {
  import opened Wrappers
  import opened ObjectGraph
  import opened GraphSteps
  import opened GraphTheorems
  import opened RequestEffects
  import opened Inventory

  datatype SpawnError = Spawned | UnknownId | WrongItemType | InvalidParameter | SystemError | CreateError

  /** What a parameter must be: an object of this kind, with a text that is acceptable. */
  datatype Rule = Rule(kind: Kind, notEmpty: bool, absolute: bool) {
    predicate Accepts(text: string) {
      (notEmpty ==> text != "") && (absolute ==> text != "" && text[0] == '/')
    }

    /** Strings and lists are locked, files are not. */
    function HoldOf(p: Pointer): Hold { Hold(p, !kind.FileKind?) }
  }

  const EXECUTABLE := Rule(StringKind, true, false)
  const LIST := Rule(ListKind, false, false)
  const DIRECTORY := Rule(StringKind, true, true)
  const FILE := Rule(FileKind, false, false)

  /** The seven parameters of process_spawn, in the order in which they are acquired. */
  const RULES := [EXECUTABLE, LIST, LIST, DIRECTORY, FILE, FILE, FILE]

  /** Why a parameter is refused, if it is. */
  ghost function Refusal(objects: Objects, rule: Rule, id: nat): SpawnError {
    if !(exists x :: IsTyped(objects, rule.kind, id, x)) then UnknownId
    else if rule.kind.ListKind? && exists x ::
      IsTyped(objects, ListKind, id, x) && !OnlyStrings(objects, objects[x].holds) then WrongItemType
    else if exists x :: IsTyped(objects, rule.kind, id, x) && !rule.Accepts(objects[x].text) then InvalidParameter
    else Spawned
  }

  /** The first parameter that is refused decides. */
  ghost function FirstRefusal(objects: Objects, ids: seq<nat>, n: nat): SpawnError
    requires n <= |ids| == |RULES|
  {
    if n == 0 then Spawned
    else if !FirstRefusal(objects, ids, n - 1).Spawned? then FirstRefusal(objects, ids, n - 1)
    else Refusal(objects, RULES[n - 1], ids[n - 1])
  }

  /** A hold on the object that a parameter names. */
  ghost predicate Fits(objects: Objects, rule: Rule, id: nat, h: Hold) {
    && IsTyped(objects, rule.kind, id, h.target) && h == rule.HoldOf(h.target) && rule.Accepts(objects[h.target].text)
    && (rule.kind.ListKind? ==> OnlyStrings(objects, objects[h.target].holds))
  }

  lemma AlikeRefusals(a: Objects, b: Objects, rule: Rule, id: nat, h: Hold)
    requires Alike(a, b)
    ensures Refusal(a, rule, id) == Refusal(b, rule, id)
    ensures Fits(a, rule, id, h) == Fits(b, rule, id, h)
  {
    forall x
      ensures IsTyped(a, rule.kind, id, x) == IsTyped(b, rule.kind, id, x)
      ensures IsTyped(a, ListKind, id, x) == IsTyped(b, ListKind, id, x)
    {
    }
    forall x | x in a
      ensures OnlyStrings(a, a[x].holds) == OnlyStrings(b, b[x].holds)
    {
    }
  }

  lemma FittingMayBeHeld(objects: Objects, rule: Rule, id: nat, h: Hold)
    requires rule in RULES && Fits(objects, rule, id, h)
    ensures MayHold(objects, ProcessKind, h) && (objects[h.target].kind.ListKind? ==> h.locked)
  {
  }

  /** The parameter is acquired; when its text is not acceptable, it is left to be released with
      the others. */
  method TakeOne(inventory: Inventory, rule: Rule, id: nat, ghost s: State) returns (e: SpawnError, taken: seq<Hold>)
    requires inventory.Valid() && Touched(s, inventory.View())
    modifies inventory
    ensures inventory.Valid() && Touched(s, inventory.View()) && Alike(old(inventory.objects), inventory.objects)
    ensures inventory.pins == old(inventory.pins) + multiset(taken)
    ensures e == Refusal(old(inventory.objects), rule, id)
    ensures e.Spawned? ==> |taken| == 1 && Fits(old(inventory.objects), rule, id, taken[0])
  {
    hide InvBut, Touched;
    taken := [];
    var found, p := inventory.GetTyped(rule.kind, id);
    if !found {
      return UnknownId, taken;
    }
    if rule.kind.ListKind? {
      var checked := inventory.ListEnsureItemType(p, StringKind);
      if !checked.Success? {
        assert IsTyped(inventory.objects, ListKind, id, p)
               && !OnlyStrings(inventory.objects, inventory.objects[p].holds);
        return WrongItemType, taken;
      }
    }
    ghost var t := inventory.View();
    inventory.Acquire(rule.HoldOf(p));
    BumpTouches(t, inventory.View(), rule.HoldOf(p));
    TouchedTransitive(s, t, inventory.View());
    taken := [rule.HoldOf(p)];
    e := if rule.Accepts(inventory.objects[p].text) then Spawned else InvalidParameter;
  }

  /** All parameters, up to the first that is refused. */
  method TakeAll(inventory: Inventory, ids: seq<nat>) returns (e: SpawnError, taken: seq<Hold>)
    requires inventory.Valid() && |ids| == |RULES|
    modifies inventory
    ensures inventory.Valid() && Touched(old(inventory.View()), inventory.View())
            && Alike(old(inventory.objects), inventory.objects)
    ensures inventory.pins == old(inventory.pins) + multiset(taken)
    ensures e == FirstRefusal(old(inventory.objects), ids, |RULES|)
    ensures e.Spawned? ==> |taken| == |RULES| && forall i | 0 <= i < |RULES| ::
              Fits(old(inventory.objects), RULES[i], ids[i], taken[i])
  {
    hide InvBut, Touched, Fits, Refusal;
    TouchedNothing(inventory.View());
    e, taken := Spawned, [];
    var i := 0;
    while i < |RULES| && e.Spawned?
      invariant i <= |RULES| && inventory.Valid() && Touched(old(inventory.View()), inventory.View())
      invariant Alike(old(inventory.objects), inventory.objects)
      invariant inventory.pins == old(inventory.pins) + multiset(taken)
      invariant e == FirstRefusal(old(inventory.objects), ids, i)
      invariant e.Spawned? ==> |taken| == i && forall k | 0 <= k < i ::
                  Fits(old(inventory.objects), RULES[k], ids[k], taken[k])
    {
      ghost var before := inventory.objects;
      var more;
      e, more := TakeOne(inventory, RULES[i], ids[i], old(inventory.View()));
      AlikeRefusals(old(inventory.objects), before, RULES[i], ids[i], if more == [] then Hold(0, false) else more[0]);
      taken := taken + more;
      i := i + 1;
    }
    StaysRefused(old(inventory.objects), ids, i);
  }

  lemma {:induction false} StaysRefused(objects: Objects, ids: seq<nat>, i: nat)
    requires i <= |ids| == |RULES| && (i == |RULES| || !FirstRefusal(objects, ids, i).Spawned?)
    ensures FirstRefusal(objects, ids, |RULES|) == FirstRefusal(objects, ids, i)
    decreases |RULES| - i
  {
    hide Refusal;
    if i < |RULES| {
      StaysRefused(objects, ids, i + 1);
    }
  }

  // ----- handing over -----

  lemma MayHoldStays(objects: Objects, x: Pointer, holds: seq<Hold>, h: Hold)
    requires x in objects && objects[x].kind.ProcessKind? && MayHold(objects, ProcessKind, h)
    ensures MayHold(objects[x := objects[x].(holds := holds)], ProcessKind, h)
  {
    var after := objects[x := objects[x].(holds := holds)];
    assert after[h.target].kind == objects[h.target].kind;
    if objects[h.target].kind.ListKind? {
      assert OnlyStrings(after, after[h.target].holds);
    }
  }

  lemma TakenNext(pins: multiset<Hold>, taken: seq<Hold>, i: nat)
    requires i < |taken| && multiset(taken) <= pins
    ensures taken[i] in pins - multiset(taken[..i])
    ensures pins - multiset(taken[..i]) - multiset{taken[i]} == pins - multiset(taken[..i + 1])
  {
    NextHold(pins, taken, i);
  }

  /** The new process object keeps the references. */
  method HandOver(inventory: Inventory, p: Pointer, taken: seq<Hold>)
    requires inventory.Valid() && multiset(taken) <= inventory.pins
    requires p in inventory.objects && inventory.objects[p].kind.ProcessKind? && inventory.objects[p].holds == []
    requires forall h | h in taken :: MayHold(inventory.objects, ProcessKind, h)
    modifies inventory
    ensures inventory.Valid()
    ensures inventory.View() == WithHolds(old(inventory.View()), p, taken, old(inventory.pins) - multiset(taken))
  {
    hide InvBut, MayHold, WithHolds;
    ghost var s := inventory.View();
    var i := 0;
    NothingHandedOver(s, p, taken);
    while i < |taken|
      invariant i <= |taken| && inventory.Valid()
      invariant inventory.View() == WithHolds(s, p, taken[..i], s.pins - multiset(taken[..i]))
    {
      OneMore(s, p, taken, i);
      inventory.Adopt(p, taken[i]);
      i := i + 1;
    }
    assert taken[..|taken|] == taken;
  }

  lemma NothingHandedOver(s: State, p: Pointer, taken: seq<Hold>)
    requires p in s.objects && s.objects[p].holds == []
    ensures s == WithHolds(s, p, taken[..0], s.pins - multiset(taken[..0]))
  {
    assert taken[..0] == [] && s.objects[p].(holds := []) == s.objects[p];
    assert s.objects[p := s.objects[p]] == s.objects;
  }

  lemma OneMore(s: State, p: Pointer, taken: seq<Hold>, i: nat)
    requires p in s.objects && s.objects[p].kind.ProcessKind? && i < |taken| && multiset(taken) <= s.pins
    requires forall h | h in taken :: MayHold(s.objects, ProcessKind, h)
    ensures var t := WithHolds(s, p, taken[..i], s.pins - multiset(taken[..i]));
            && p in t.objects && t.objects[p].kind.ProcessKind? && taken[i] in t.pins
            && MayHold(t.objects, ProcessKind, taken[i])
            && WithHolds(t, p, t.objects[p].holds + [taken[i]], t.pins - multiset{taken[i]})
               == WithHolds(s, p, taken[..i + 1], s.pins - multiset(taken[..i + 1]))
  {
    hide MayHold;
    TakenNext(s.pins, taken, i);
    assert taken[i] in taken;
    MayHoldStays(s.objects, p, taken[..i], taken[i]);
    assert taken[..i + 1] == taken[..i] + [taken[i]];
  }

  // ----- spawning -----

  /** How the system calls after the acquisitions turn out. */
  datatype System = Works | Fails | EventRefused

  /** A process object was added that holds exactly what the parameters name; the session that
      asked for it, if any, has one reference to it. */
  ghost predicate Added(s: State, t: State, p: Pointer, ids: seq<nat>, session: Option<Pointer>)
    requires |ids| == |RULES|
  {
    && p !in s.objects && p in t.objects && t.objects.Keys == s.objects.Keys + {p}
    && t.objects[p].kind.ProcessKind? && |t.objects[p].holds| == |RULES|
    && (forall i | 0 <= i < |RULES| :: Fits(s.objects, RULES[i], ids[i], t.objects[p].holds[i]))
    && (forall x | x in s.objects :: SameButCounts(s.objects[x], t.objects[x]))
    && t.pins == s.pins + multiset{Hold(p, false)} && Referred(s, t, p, session)
  }

  ghost predicate Referred(s: State, t: State, p: Pointer, session: Option<Pointer>) {
    if session.Some? then HeldChanged(s.references, t.references, p, session.value, 1)
    else t.sessions == s.sessions && t.references == s.references
  }

  lemma MayHoldWithMore(objects: Objects, p: Pointer, o: Object, h: Hold)
    requires p !in objects && MayHold(objects, ProcessKind, h)
    ensures MayHold(objects[p := o], ProcessKind, h)
  {
    var after := objects[p := o];
    if objects[h.target].kind.ListKind? {
      assert OnlyStrings(after, after[h.target].holds);
    }
  }

  lemma StillFree(s: State, t: State, p: Pointer, r: Pointer)
    requires Touched(s, t) && p !in s.objects && r !in s.references
    ensures p !in t.objects && r !in t.references && t.sessions == s.sessions
  {
  }

  lemma AlikeIds(a: Objects, b: Objects)
    requires Alike(a, b)
    ensures AllIdsUsed(a) == AllIdsUsed(b)
  {
    assert forall id :: IdUsed(a, id) == IdUsed(b, id);
  }

  lemma AllMayBeHeld(a: Objects, b: Objects, ids: seq<nat>, taken: seq<Hold>)
    requires Alike(a, b) && |ids| == |RULES| == |taken|
    requires forall i | 0 <= i < |RULES| :: Fits(a, RULES[i], ids[i], taken[i])
    ensures forall h | h in taken :: MayHold(b, ProcessKind, h)
  {
    hide Fits, MayHold;
    forall h | h in taken
      ensures MayHold(b, ProcessKind, h)
    {
      var i :| 0 <= i < |taken| && taken[i] == h;
      AlikeRefusals(a, b, RULES[i], ids[i], h);
      FittingMayBeHeld(b, RULES[i], ids[i], h);
    }
  }

  lemma AddedNow(s: State, t: State, u: State, p: Pointer, ids: seq<nat>, taken: seq<Hold>, session: Option<Pointer>)
    requires Touched(s, t) && Alike(s.objects, t.objects) && t.pins == s.pins + multiset(taken)
             && |ids| == |RULES| == |taken|
    requires forall i | 0 <= i < |RULES| :: Fits(s.objects, RULES[i], ids[i], taken[i])
    requires p !in t.objects && p in u.objects && u.objects == t.objects[p := u.objects[p]]
    requires u.objects[p].kind.ProcessKind? && u.objects[p].holds == taken
    requires u.pins == t.pins - multiset(taken) + multiset{Hold(p, false)} && Referred(t, u, p, session)
    ensures Added(s, u, p, ids, session)
  {
    hide Fits, HeldChanged;
  }

  /** The identifier names a string that is no absolute path. */
  ghost predicate Relative(objects: Objects, id: nat) {
    exists x :: IsTyped(objects, StringKind, id, x) && (objects[x].text == "" || objects[x].text[0] != '/')
  }

  /** Executable, arguments, environment, working directory, and files for stdin, stdout and stderr. */
  ghost predicate Acceptable(objects: Objects, ids: seq<nat>)
    requires |ids| == 7
  {
    && Named(objects, StringKind, ids[0]) && !Blank(objects, ids[0])
    && Named(objects, ListKind, ids[1]) && !Mixed(objects, ids[1])
    && Named(objects, ListKind, ids[2]) && !Mixed(objects, ids[2])
    && Named(objects, StringKind, ids[3]) && !Relative(objects, ids[3])
    && Named(objects, FileKind, ids[4]) && Named(objects, FileKind, ids[5]) && Named(objects, FileKind, ids[6])
  }

  lemma RefusalIs(objects: Objects, id: nat)
    ensures Refusal(objects, EXECUTABLE, id) ==
              if !Named(objects, StringKind, id) then UnknownId
              else if Blank(objects, id) then InvalidParameter else Spawned
    ensures Refusal(objects, LIST, id) ==
              if !Named(objects, ListKind, id) then UnknownId
              else if Mixed(objects, id) then WrongItemType else Spawned
    ensures Refusal(objects, DIRECTORY, id) ==
              if !Named(objects, StringKind, id) then UnknownId
              else if Relative(objects, id) then InvalidParameter else Spawned
    ensures Refusal(objects, FILE, id) == if !Named(objects, FileKind, id) then UnknownId else Spawned
  {
    assert Mixed(objects, id) <==>
           exists x :: IsTyped(objects, ListKind, id, x) && !OnlyStrings(objects, objects[x].holds);
  }

  lemma InOrder(objects: Objects, ids: seq<nat>)
    requires |ids| == 7
    ensures FirstRefusal(objects, ids, 7) ==
              if !Named(objects, StringKind, ids[0]) then UnknownId
              else if Blank(objects, ids[0]) then InvalidParameter
              else if !Named(objects, ListKind, ids[1]) then UnknownId
              else if Mixed(objects, ids[1]) then WrongItemType
              else if !Named(objects, ListKind, ids[2]) then UnknownId
              else if Mixed(objects, ids[2]) then WrongItemType
              else if !Named(objects, StringKind, ids[3]) then UnknownId
              else if Relative(objects, ids[3]) then InvalidParameter
              else if !Named(objects, FileKind, ids[4]) || !Named(objects, FileKind, ids[5])
                      || !Named(objects, FileKind, ids[6]) then UnknownId
              else Spawned
    ensures FirstRefusal(objects, ids, 7).Spawned? <==> Acceptable(objects, ids)
  {
    hide Refusal, Named, Blank, Mixed, Relative;
    RefusalIs(objects, ids[0]);
    RefusalIs(objects, ids[1]);
    RefusalIs(objects, ids[2]);
    RefusalIs(objects, ids[3]);
    RefusalIs(objects, ids[4]);
    RefusalIs(objects, ids[5]);
    RefusalIs(objects, ids[6]);
    assert RULES[0] == EXECUTABLE && RULES[1] == RULES[2] == LIST && RULES[3] == DIRECTORY;
    assert RULES[4] == RULES[5] == RULES[6] == FILE;
    forall n | 1 <= n <= 7
      ensures FirstRefusal(objects, ids, n) ==
                if n > 1 && !FirstRefusal(objects, ids, n - 1).Spawned? then FirstRefusal(objects, ids, n - 1)
                else Refusal(objects, RULES[n - 1], ids[n - 1])
    {
    }
    hide FirstRefusal;
  }

  /** What a process object holds: strings and lists are locked, files are not. */
  lemma HeldInOrder(s: State, t: State, p: Pointer, ids: seq<nat>, session: Option<Pointer>)
    requires |ids| == |RULES| && Added(s, t, p, ids, session)
    ensures p in t.objects && |t.objects[p].holds| == 7
    ensures forall i | 0 <= i < 7 ::
              && IsTyped(s.objects, if i == 0 || i == 3 then StringKind else if i < 3 then ListKind else FileKind,
                         ids[i], t.objects[p].holds[i].target)
              && (t.objects[p].holds[i].locked <==> i < 4)
  {
    hide IsTyped, SameButCounts;
    forall i | 0 <= i < 7
      ensures && IsTyped(s.objects, if i == 0 || i == 3 then StringKind else if i < 3 then ListKind else FileKind,
                         ids[i], t.objects[p].holds[i].target)
              && (t.objects[p].holds[i].locked <==> i < 4)
    {
      assert Fits(s.objects, RULES[i], ids[i], t.objects[p].holds[i]);
    }
  }

  /** process_spawn, for a session or for the scheduler, which has none. Either the process object
      holds all seven references, or everything is as before, unless the failure to create the
      object leaves a record dangling. When the event loop refuses the state change pipe, a success
      is returned although nothing was created. */
  method Spawn(inventory: Inventory, ids: seq<nat>, session: Option<Pointer>, address: Pointer, recordAddress: Pointer,
               system: System, recordMemory: bool, tableMemory: bool)
    returns (e: SpawnError, created: bool)
    requires inventory.Valid() && |ids| == |RULES|
    requires address !in inventory.objects && recordAddress !in inventory.references
    requires session.Some? ==> session.value in inventory.sessions
    modifies inventory
    ensures inventory.Valid() <==>
              !(Acceptable(old(inventory.objects), ids) && system.Works?
                && old(LeavesDangling(inventory.objects, FlagsFor(session), session, recordMemory, tableMemory)))
    ensures if created then Added(old(inventory.View()), inventory.View(), address, ids, session)
            else inventory.Valid() ==> inventory.View() == old(inventory.View())
    ensures created ==>
              && address in inventory.objects && |inventory.objects[address].holds| == 7
              && forall i | 0 <= i < 7 ::
                   var h := inventory.objects[address].holds[i];
                   && IsTyped(old(inventory.objects), if i == 0 || i == 3 then StringKind
                                                      else if i < 3 then ListKind else FileKind, ids[i], h.target)
                   && (h.locked <==> i < 4)
    ensures var o := old(inventory.objects);
            e == if !Named(o, StringKind, ids[0]) then UnknownId
                 else if Blank(o, ids[0]) then InvalidParameter
                 else if !Named(o, ListKind, ids[1]) then UnknownId
                 else if Mixed(o, ids[1]) then WrongItemType
                 else if !Named(o, ListKind, ids[2]) then UnknownId
                 else if Mixed(o, ids[2]) then WrongItemType
                 else if !Named(o, StringKind, ids[3]) then UnknownId
                 else if Relative(o, ids[3]) then InvalidParameter
                 else if !Named(o, FileKind, ids[4]) || !Named(o, FileKind, ids[5]) || !Named(o, FileKind, ids[6])
                 then UnknownId
                 else if system.Fails? then SystemError
                 else if system.EventRefused? || created then Spawned
                 else CreateError
    ensures created <==> Acceptable(old(inventory.objects), ids) && system.Works?
                         && (session.Some? ==> recordMemory) && tableMemory && !AllIdsUsed(old(inventory.objects))
  {
    hide InvBut, Touched, Fits, FirstRefusal, Cascaded, Alike, MayHold, Added, Referred, AllIdsUsed, IsTyped,
         Named, Blank, Mixed, Relative, Acceptable;
    ghost var s := inventory.View();
    InOrder(s.objects, ids);
    var taken;
    e, taken := TakeAll(inventory, ids);
    if !e.Spawned? || !system.Works? {
      GiveBack(inventory, taken, s);
      e := if !e.Spawned? then e else if system.Fails? then SystemError else Spawned;
      return e, false;
    }
    ghost var t := inventory.View();
    AlikeIds(s.objects, t.objects);
    AllMayBeHeld(s.objects, t.objects, ids, taken);
    StillFree(s, t, address, recordAddress);
    var dangling;
    created, dangling := AddObject(inventory, taken, session, address, recordAddress, recordMemory, tableMemory);
    if dangling {
      return CreateError, false;
    }
    if !created {
      assert inventory.View() == t;
      GiveBack(inventory, taken, s);
      return CreateError, false;
    }
    AddedNow(s, t, inventory.View(), address, ids, taken, session);
    HeldInOrder(s, inventory.View(), address, ids, session);
  }

  /** Cleanup: everything that was taken is given back. */
  method GiveBack(inventory: Inventory, taken: seq<Hold>, ghost s: State)
    requires inventory.Valid() && Inv(s) && Touched(s, inventory.View()) && inventory.pins == s.pins + multiset(taken)
    modifies inventory
    ensures inventory.Valid() && inventory.View() == s
  {
    hide InvBut, Touched, Cascaded;
    ghost var t, log := inventory.View(), inventory.destroyed;
    inventory.ReleaseAll(taken);
    CascadeTouches(t, inventory.View(), log, inventory.destroyed);
    TouchedTransitive(s, t, inventory.View());
    GivenBack(s, inventory.View());
  }

  function FlagsFor(session: Option<Pointer>): CreateFlags { CreateFlags(true, session.Some?, false) }

  /** object_create, and the references of the new object. */
  method AddObject(inventory: Inventory, taken: seq<Hold>, session: Option<Pointer>, address: Pointer,
                   recordAddress: Pointer, recordMemory: bool, tableMemory: bool)
    returns (created: bool, dangling: bool)
    requires inventory.Valid() && multiset(taken) <= inventory.pins
    requires address !in inventory.objects && recordAddress !in inventory.references
    requires session.Some? ==> session.value in inventory.sessions
    requires forall h | h in taken :: MayHold(inventory.objects, ProcessKind, h)
    modifies inventory
    ensures dangling <==> old(LeavesDangling(inventory.objects, FlagsFor(session), session, recordMemory, tableMemory))
    ensures inventory.Valid() <==> !dangling
    ensures created <==> (session.Some? ==> recordMemory) && tableMemory && !AllIdsUsed(old(inventory.objects))
    ensures !created && !dangling ==> inventory.View() == old(inventory.View())
    ensures created ==>
              && address in inventory.objects
              && inventory.objects == old(inventory.objects)[address := inventory.objects[address]]
              && inventory.objects[address].kind.ProcessKind? && inventory.objects[address].holds == taken
              && inventory.pins == old(inventory.pins) - multiset(taken) + multiset{Hold(address, false)}
              && Referred(old(inventory.View()), inventory.View(), address, session)
  {
    hide InvBut, MayHold, AllIdsUsed, HeldChanged;
    ghost var s := inventory.View();
    var code := inventory.CreateObject(ProcessKind, "", FlagsFor(session), session, address, recordAddress,
                                       recordMemory, tableMemory);
    if !code.Success? {
      created, dangling := false, session.Some? && recordMemory;
      return;
    }
    forall h | h in taken
      ensures MayHold(inventory.objects, ProcessKind, h)
    {
      MayHoldWithMore(s.objects, address, inventory.objects[address], h);
    }
    assert multiset(taken) <= inventory.pins;
    HandOver(inventory, address, taken);
    created, dangling := true, false;
  }

  // ----- and back -----

  /** Nothing but its pin holds a new process. */
  lemma GoneAgain(s: State, u: State, v: State, p: Pointer, ids: seq<nat>)
    requires |ids| == |RULES| && Inv(s) && Inv(v) && Added(s, u, p, ids, None)
    requires v.objects.Keys <= u.objects.Keys
             && (forall x | x in v.objects :: SameButCounts(u.objects[x], v.objects[x]))
    requires v.pins == s.pins && v.sessions == s.sessions && v.references == s.references
    ensures v == s
  {
    hide InvBut, Fits, Roots;
    if p in v.objects {
      var root, q := SomeoneHolds(v, p);
      LiveIsClosed(s);
      if root {
        SameRoots(s, v);
      } else if q == p {
        ContainmentIsAcyclic(v, [p, p]);
      }
      assert false;
    }
    StateIsDetermined(s, v);
  }

  lemma SameRoots(s: State, t: State)
    requires t.pins == s.pins && t.references == s.references
    ensures Roots(t, {}) == Roots(s, {})
  {
  }

  /** process_spawn and process_destroy together: when the scheduler drops its reference to a
      process nobody else refers to, every count is what it was before the process was spawned. */
  method SpawnAndDestroy(inventory: Inventory, ids: seq<nat>, address: Pointer, recordAddress: Pointer,
                         system: System, tableMemory: bool)
    returns (created: bool)
    requires inventory.Valid() && |ids| == |RULES|
    requires address !in inventory.objects && recordAddress !in inventory.references
    modifies inventory
    ensures inventory.Valid() && inventory.View() == old(inventory.View())
  {
    hide InvBut, Added, FirstRefusal, AllIdsUsed;
    ghost var s := inventory.View();
    var e;
    e, created := Spawn(inventory, ids, None, address, recordAddress, system, true, tableMemory);
    if created {
      ghost var u := inventory.View();
      assert Hold(address, false) in inventory.pins
             && u.pins - multiset{Hold(address, false)} == s.pins by { AddedPin(s, u, address, ids); }
      inventory.ReleaseHold(Hold(address, false));
      AddedPin(s, u, address, ids);
      GoneAgain(s, u, inventory.View(), address, ids);
    }
  }

  lemma AddedPin(s: State, u: State, p: Pointer, ids: seq<nat>)
    requires |ids| == |RULES| && Added(s, u, p, ids, None)
    ensures Hold(p, false) in u.pins && u.pins - multiset{Hold(p, false)} == s.pins
    ensures u.sessions == s.sessions && u.references == s.references
  {
  }
}
