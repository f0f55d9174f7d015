/** Steps that move a reference between a pin and a slot of an object, create objects and
    sessions, and edit strings. Each keeps the invariant of the object graph. */
module GraphSteps {
  import opened ObjectGraph
  import opened ReferenceRings

  /** x keeps the references in holds, and pins changes accordingly. */
  function WithHolds(s: State, x: Pointer, holds: seq<Hold>, pins: multiset<Hold>): State
    requires x in s.objects
  {
    s.(objects := s.objects[x := s.objects[x].(holds := holds)], pins := pins)
  }

  ghost predicate Unheld(s: State, x: Pointer) {
    forall p, h | p in s.objects && h in s.objects[p].holds :: h.target != x
  }

  /** Being an item locks a list, so nothing holds an unlocked list. */
  lemma UnlockedIsUnheld(s: State, x: Pointer)
    requires Counted(s) && x in s.objects && s.objects[x].kind.ListKind? && s.objects[x].lock == 0
    ensures Unheld(s, x)
  {
    forall p, h | p in s.objects && h in s.objects[p].holds
      ensures h.target != x
    {
      HoldIsSlot(s.objects, p, h);
      assert h in Slots(s);
      assert h == Hold(h.target, true) || h == Hold(h.target, false);
    }
  }

  /** What an object other than a list may hold (documented in inventory.c): objects of a
      kind below its own, and lists of strings. */
  predicate MayHold(objects: Objects, kind: Kind, h: Hold) {
    && h.target in objects
    && var t := objects[h.target];
       if t.kind.ListKind? then !kind.StringKind? && OnlyStrings(objects, t.holds)
       else KindRank(t.kind) < KindRank(kind)
  }

  lemma NewHoldsRanked(objects: Objects, x: Pointer, holds: seq<Hold>, rank: map<Pointer, nat>, n: nat)
    requires Ranked(objects, rank) && x in objects
    requires if objects[x].kind.ListKind? then n >= 1 && (OnlyStrings(objects, holds) ==> n == 1) else n == rank[x]
    requires forall h | h in holds :: h.target in objects && h.target != x && rank[h.target] < n
    requires objects[x].kind.ListKind? ==> forall h | h in holds :: h.locked
    requires forall p, h | p in objects && h in objects[p].holds && p != x && h.target == x :: n <= rank[x]
    ensures Ranked(objects[x := objects[x].(holds := holds)], rank[x := n])
  {
    var objects', rank' := objects[x := objects[x].(holds := holds)], rank[x := n];
    forall p | p in objects' && objects'[p].kind.ListKind?
      ensures rank'[p] >= 1 && (OnlyStrings(objects', objects'[p].holds) ==> rank'[p] == 1)
    {
      if OnlyStrings(objects', objects'[p].holds) {
        assert OnlyStrings(objects, objects'[p].holds);
      }
    }
  }

  /** Appending any object but itself to a list nothing holds cannot close a cycle. */
  lemma AppendKeepsAcyclic(objects: Objects, x: Pointer, h: Hold)
    requires Acyclic(objects) && x in objects && objects[x].kind.ListKind?
    requires h.target in objects && h.target != x && h.locked
    requires forall p, k | p in objects && k in objects[p].holds :: k.target != x
    ensures Acyclic(objects[x := objects[x].(holds := objects[x].holds + [h])])
  {
    var rank :| Ranked(objects, rank);
    var n := if objects[h.target].kind.StringKind? || rank[h.target] < rank[x] then rank[x] else rank[h.target] + 1;
    var holds := objects[x].holds + [h];
    if OnlyStrings(objects, holds) {
      assert h in holds;
      assert forall k | k in objects[x].holds :: k in holds;
      assert OnlyStrings(objects, objects[x].holds);
    } else if objects[h.target].kind.StringKind? {
      assert exists k :: k in objects[x].holds && !(k.target in objects && objects[k.target].kind.StringKind?);
    }
    NewHoldsRanked(objects, x, holds, rank, if OnlyStrings(objects, holds) then 1 else n);
  }

  lemma AdoptKeepsAcyclic(objects: Objects, x: Pointer, h: Hold)
    requires Acyclic(objects) && HoldsLive(objects) && x in objects && !objects[x].kind.ListKind?
    requires MayHold(objects, objects[x].kind, h)
    ensures Acyclic(objects[x := objects[x].(holds := objects[x].holds + [h])])
  {
    var rank :| Ranked(objects, rank);
    NewHoldsRanked(objects, x, objects[x].holds + [h], rank, rank[x]);
  }

  /** What follows slot i moves up by one. */
  function WithoutSlot(holds: seq<Hold>, i: nat): (rest: seq<Hold>)
    requires i < |holds|
    ensures |rest| == |holds| - 1
    ensures forall k | 0 <= k < |rest| :: rest[k] == if k < i then holds[k] else holds[k + 1]
  {
    holds[..i] + holds[i+1..]
  }

  lemma RemoveMultiset(holds: seq<Hold>, i: nat)
    requires i < |holds|
    ensures multiset(WithoutSlot(holds, i)) == multiset(holds) - multiset{holds[i]}
    ensures holds[i] in multiset(holds)
  {
    assert holds == holds[..i] + [holds[i]] + holds[i+1..];
  }

  lemma RemoveKeepsAcyclic(objects: Objects, x: Pointer, i: nat)
    requires Acyclic(objects) && x in objects && i < |objects[x].holds|
    requires objects[x].kind.ListKind? ==> forall p, k | p in objects && k in objects[p].holds :: k.target != x
    ensures Acyclic(objects[x := objects[x].(holds := WithoutSlot(objects[x].holds, i))])
  {
    var rank :| Ranked(objects, rank);
    var holds := WithoutSlot(objects[x].holds, i);
    assert forall h | h in holds :: h in objects[x].holds;
    NewHoldsRanked(objects, x, holds, rank,
                   if objects[x].kind.ListKind? && OnlyStrings(objects, holds) then 1 else rank[x]);
  }

  lemma SlotsMove(s: State, x: Pointer, holds: seq<Hold>, pins: multiset<Hold>)
    requires x in s.objects && multiset(s.objects[x].holds) + s.pins == multiset(holds) + pins
    ensures Slots(WithHolds(s, x, holds, pins)) == Slots(s)
  {
    var total, mine := Total(s.objects), multiset(s.objects[x].holds);
    TotalUpdate(s.objects, x, s.objects[x].(holds := holds));
    calc {
      Slots(WithHolds(s, x, holds, pins));
      (total - mine + multiset(holds)) + pins;
      (total - mine) + (mine + s.pins);
      { assert (total - mine) + mine == total; }
      Slots(s);
    }
  }

  lemma CountsAgree(objects: Objects, objects': Objects, slots: multiset<Hold>)
    requires CountedBy(objects, slots) && objects.Keys == objects'.Keys
    requires forall p | p in objects ::
               && objects'[p].internal == objects[p].internal && objects'[p].lock == objects[p].lock
               && objects'[p].kind == objects[p].kind
    ensures CountedBy(objects', slots)
  {
  }

  lemma WithHoldsKeepsRest(s: State, x: Pointer, holds: seq<Hold>, pins: multiset<Hold>)
    requires Inv(s) && x in s.objects
    requires multiset(s.objects[x].holds) + s.pins == multiset(holds) + pins
    requires Acyclic(WithHolds(s, x, holds, pins).objects)
    ensures Inv(WithHolds(s, x, holds, pins))
  {
    hide RingsOk, Acyclic, IdsOk, CountedBy;
    var t := WithHolds(s, x, holds, pins);
    SlotsMove(s, x, holds, pins);
    CountsAgree(s.objects, t.objects, Slots(s));
    RingsAgree(s, t);
    IdsAgree(s, t);
  }

  /** A pinned object becomes an item of an unlocked list, or is taken over by an object
      that may use it. */
  lemma AdoptKeeps(s: State, x: Pointer, h: Hold)
    requires Inv(s) && h in s.pins && x in s.objects
    requires if s.objects[x].kind.ListKind? then s.objects[x].lock == 0 && h.target != x && h.locked
             else MayHold(s.objects, s.objects[x].kind, h)
    ensures Inv(WithHolds(s, x, s.objects[x].holds + [h], s.pins - multiset{h}))
  {
    hide RingsOk, Acyclic, IdsOk;
    assert h in Slots(s);
    SlotIsLive(s, h);
    HoldsAreLive(s);
    if s.objects[x].kind.ListKind? {
      UnlockedIsUnheld(s, x);
      AppendKeepsAcyclic(s.objects, x, h);
    } else {
      AdoptKeepsAcyclic(s.objects, x, h);
    }
    WithHoldsKeepsRest(s, x, s.objects[x].holds + [h], s.pins - multiset{h});
  }

  /** The opposite: a slot of an unlocked list, or of any other object, becomes a pin. */
  lemma DisownKeeps(s: State, x: Pointer, i: nat)
    requires Inv(s) && x in s.objects && i < |s.objects[x].holds|
    requires s.objects[x].kind.ListKind? ==> s.objects[x].lock == 0
    ensures Inv(WithHolds(s, x, WithoutSlot(s.objects[x].holds, i), s.pins + multiset{s.objects[x].holds[i]}))
  {
    hide RingsOk, Acyclic, IdsOk, WithoutSlot;
    RemoveMultiset(s.objects[x].holds, i);
    if s.objects[x].kind.ListKind? {
      UnlockedIsUnheld(s, x);
    }
    RemoveKeepsAcyclic(s.objects, x, i);
    WithHoldsKeepsRest(s, x, WithoutSlot(s.objects[x].holds, i), s.pins + multiset{s.objects[x].holds[i]});
  }

  lemma SameHoldsTotal(objects: Objects, x: Pointer, o: Object)
    requires x in objects && o.holds == objects[x].holds
    ensures Total(objects[x := o]) == Total(objects)
  {
    TotalUpdate(objects, x, o);
  }

  /** Changing anything but kind, holds and internal counts of one object. */
  lemma ShapeAgrees(s: State, t: State, x: Pointer, o: Object)
    requires Counted(s) && Acyclic(s.objects) && x in s.objects
    requires t.pins == s.pins && t.objects == s.objects[x := o]
    requires o.kind == s.objects[x].kind && o.holds == s.objects[x].holds
    requires o.internal == s.objects[x].internal && o.lock == s.objects[x].lock
    ensures Counted(t) && Acyclic(t.objects)
  {
    hide CountedBy, Acyclic;
    SameHoldsTotal(s.objects, x, o);
    CountsAgree(s.objects, t.objects, Slots(s));
    ShapeKeepsAcyclic(t, s.objects, x);
  }

  lemma ShapeKeepsAcyclic(t: State, objects: Objects, x: Pointer)
    requires Counted(t) && Acyclic(objects) && x in objects && x in t.objects && t.objects == objects[x := t.objects[x]]
    requires t.objects[x].kind == objects[x].kind && t.objects[x].holds == objects[x].holds
    ensures Acyclic(t.objects)
  {
    hide Counted, Acyclic, HoldsLive;
    HoldsAreLive(t);
    RanksAgree(objects, t.objects);
  }

  /** Strings change in place; nothing but the text changes. */
  lemma EditKeeps(s: State, x: Pointer, text: string)
    requires Inv(s) && x in s.objects
    ensures Inv(s.(objects := s.objects[x := s.objects[x].(text := text)]))
  {
    hide Counted, RingsOk, Acyclic, IdsOk;
    var t := s.(objects := s.objects[x := s.objects[x].(text := text)]);
    ShapeAgrees(s, t, x, t.objects[x]);
    RingsAgree(s, t);
    IdsAgree(s, t);
  }

  // ----- external references -----

  /** A change of external references touches rings and external counts only. */
  ghost predicate SameButRings(s: State, t: State, p: Pointer) {
    && p in s.objects && p in t.objects && t.pins == s.pins
    && t.objects == s.objects[p := t.objects[p]]
    && t.objects[p] == s.objects[p].(external := t.objects[p].external, ring := t.objects[p].ring)
    && t.sessions.Keys == s.sessions.Keys
    && forall q | q in s.sessions :: t.sessions[q].id == s.sessions[q].id
  }

  lemma RecordChangeKeeps(s: State, t: State, p: Pointer)
    requires Counted(s) && Acyclic(s.objects) && IdsOk(s) && SameButRings(s, t, p)
    ensures Counted(t) && Acyclic(t.objects) && IdsOk(t)
  {
    hide Counted, Acyclic;
    ShapeAgrees(s, t, p, t.objects[p]);
  }

  lemma LinkKeeps(s: State, p: Pointer, q: Pointer, r: Pointer, dying: set<Pointer>)
    requires InvBut(s, dying) && p in s.objects && q in s.sessions && r !in s.references
    requires forall t :: !IsRecord(s.references, t, p, q)
    ensures InvBut(Link(s, p, q, r), dying - {p})
  {
    hide Counted, RingsOk, Acyclic, IdsOk;
    LinkKeepsRings(s, p, q, r);
    RecordChangeKeeps(s, Link(s, p, q, r), p);
    CountsNonNegative(s, p);
  }

  lemma AdjustKeeps(s: State, r: Pointer, d: int)
    requires Inv(s) && r in s.references && s.references[r].count + d > 0
    ensures RecordOk(s, r) && Inv(Adjust(s, r, d))
  {
    hide Counted, RingsOk, Acyclic, IdsOk;
    AdjustKeepsRings(s, r, d);
    var t := Adjust(s, r, d);
    RecordChangeKeeps(s, t, s.references[r].obj);
    CountsNonNegative(t, s.references[r].obj);
    RecordedIsInUse(t, r);
  }

  lemma RecordedIsInUse(s: State, r: Pointer)
    requires Counted(s) && RingsOk(s) && r in s.references
    ensures RecordOk(s, r) && InUse(s.objects[s.references[r].obj])
  {
    assert RecordOk(s, r);
    if !InUse(s.objects[s.references[r].obj]) {
      CountsNonNegative(s, s.references[r].obj);
      UnusedIsUnheld(s, s.references[r].obj);
    }
  }

  lemma UnlinkKeeps(s: State, r: Pointer)
    requires Inv(s) && r in s.references
    ensures RecordOk(s, r) && InvBut(Unlink(s, r), {s.references[r].obj})
  {
    hide Counted, RingsOk, Acyclic, IdsOk;
    UnlinkKeepsRings(s, r);
    RecordChangeKeeps(s, Unlink(s, r), s.references[r].obj);
  }

  /** The number of external references session q has to object p. */
  ghost function Held(references: References, p: Pointer, q: Pointer): int {
    if exists r :: IsRecord(references, r, p, q)
    then var r :| IsRecord(references, r, p, q); references[r].count
    else 0
  }

  /** d more references from session q to object p, nothing else. */
  ghost predicate HeldChanged(a: References, b: References, p: Pointer, q: Pointer, d: int) {
    forall x, y :: Held(b, x, y) == Held(a, x, y) + if x == p && y == q then d else 0
  }

  lemma HeldIs(references: References, r: Pointer)
    requires OnePerPair(references) && r in references
    ensures Held(references, references[r].obj, references[r].session) == references[r].count
  {
    assert IsRecord(references, r, references[r].obj, references[r].session);
  }

  lemma HeldAgrees(a: References, b: References, x: Pointer, y: Pointer)
    requires OnePerPair(a) && OnePerPair(b)
    requires forall r :: IsRecord(a, r, x, y) <==> IsRecord(b, r, x, y)
    requires forall r | IsRecord(a, r, x, y) :: r in b && b[r] == a[r]
    ensures Held(b, x, y) == Held(a, x, y)
  {
    if r :| IsRecord(a, r, x, y) {
      HeldIs(a, r);
      HeldIs(b, r);
    }
  }

  lemma HeldAfterUpdate(references: References, r: Pointer, e: Reference)
    requires OnePerPair(references) && OnePerPair(references[r := e])
    requires r in references ==> references[r].obj == e.obj && references[r].session == e.session
    ensures HeldChanged(references, references[r := e], e.obj, e.session,
                        e.count - if r in references then references[r].count else 0)
  {
    var after := references[r := e];
    forall x, y
      ensures Held(after, x, y) == Held(references, x, y)
                + if x == e.obj && y == e.session then e.count - if r in references then references[r].count else 0
                else 0
    {
      if x == e.obj && y == e.session {
        HeldIs(after, r);
        if r in references {
          HeldIs(references, r);
        } else {
          forall t ensures !IsRecord(references, t, x, y) {
            assert t in references ==> after[t] == references[t] && t != r;
          }
        }
      } else {
        forall t ensures IsRecord(references, t, x, y) <==> IsRecord(after, t, x, y) {}
        HeldAgrees(references, after, x, y);
      }
    }
  }

  lemma HeldAfterRemoval(references: References, r: Pointer)
    requires OnePerPair(references) && r in references
    ensures HeldChanged(references, references - {r}, references[r].obj, references[r].session, -references[r].count)
  {
    var after, e := references - {r}, references[r];
    forall x, y
      ensures Held(after, x, y) == Held(references, x, y) - if x == e.obj && y == e.session then e.count else 0
    {
      if x == e.obj && y == e.session {
        HeldIs(references, r);
        assert forall t :: !IsRecord(after, t, x, y);
      } else {
        forall t ensures IsRecord(references, t, x, y) <==> IsRecord(after, t, x, y) {}
        HeldAgrees(references, after, x, y);
      }
    }
  }

  lemma LinkEffect(s: State, p: Pointer, q: Pointer, r: Pointer)
    requires Inv(s) && p in s.objects && q in s.sessions && r !in s.references
    requires forall t :: !IsRecord(s.references, t, p, q)
    ensures Inv(Link(s, p, q, r))
    ensures SameButRings(s, Link(s, p, q, r), p)
    ensures HeldChanged(s.references, Link(s, p, q, r).references, p, q, 1)
  {
    hide InvBut, HeldChanged, IsRecord, OnePerPair;
    LinkKeeps(s, p, q, r, {});
    assert {} - {p} == {};
    OncePerPair(s);
    OncePerPair(Link(s, p, q, r));
    HeldAfterUpdate(s.references, r, Reference(p, q, 1));
  }

  lemma OncePerPair(s: State)
    requires Inv(s)
    ensures OnePerPair(s.references)
  {
    hide Counted, RingsCounted, Acyclic, IdsOk, InUse, OnePerPair;
  }

  lemma AdjustEffect(s: State, r: Pointer, d: int)
    requires Inv(s) && r in s.references && s.references[r].count + d > 0
    ensures RecordOk(s, r) && Inv(Adjust(s, r, d))
    ensures SameButRings(s, Adjust(s, r, d), s.references[r].obj)
    ensures HeldChanged(s.references, Adjust(s, r, d).references, s.references[r].obj, s.references[r].session, d)
  {
    hide InvBut, HeldChanged, OnePerPair;
    OwnersOf(s, r);
    AdjustKeeps(s, r, d);
    OncePerPair(s);
    OncePerPair(Adjust(s, r, d));
    HeldAfterUpdate(s.references, r, Adjust(s, r, d).references[r]);
  }

  lemma OwnersOf(s: State, r: Pointer)
    requires Inv(s) && r in s.references
    ensures RecordOk(s, r) && s.references[r].obj in s.objects && s.references[r].session in s.sessions
  {
    hide Counted, RingsCounted, Acyclic, IdsOk, InUse, OnePerPair;
  }

  lemma UnlinkEffect(s: State, r: Pointer)
    requires Inv(s) && r in s.references
    ensures RecordOk(s, r) && InvBut(Unlink(s, r), {s.references[r].obj})
    ensures SameButRings(s, Unlink(s, r), s.references[r].obj)
    ensures HeldChanged(s.references, Unlink(s, r).references, s.references[r].obj, s.references[r].session,
                        -s.references[r].count)
  {
    hide Counted, RingsCounted, Acyclic, IdsOk, InUse, Held;
    UnlinkKeeps(s, r);
    HeldAfterRemoval(s.references, r);
  }

  // ----- sessions -----

  lemma NoReferencesLeft(s: State, q: Pointer)
    requires RingsOk(s) && q in s.sessions && s.sessions[q].ring == []
    ensures forall r | r in s.references :: s.references[r].session != q
  {
    forall r | r in s.references
      ensures s.references[r].session != q
    {
      assert RecordOk(s, r);
    }
  }

  /** Owners without any record come and go as they like. */
  lemma UnlinkedKeepsRings(s: State, t: State)
    requires RingsOk(s) && t.references == s.references
    requires forall p | p in t.objects ::
               if p in s.objects then
                 t.objects[p].ring == s.objects[p].ring && t.objects[p].external == s.objects[p].external
               else t.objects[p].ring == [] && t.objects[p].external == 0
    requires forall q | q in t.sessions ::
               if q in s.sessions then
                 t.sessions[q].ring == s.sessions[q].ring && t.sessions[q].external == s.sessions[q].external
               else t.sessions[q].ring == [] && t.sessions[q].external == 0
    requires forall r | r in s.references :: s.references[r].obj in t.objects && s.references[r].session in t.sessions
    ensures RingsOk(t)
  {
    hide RingsOk, OnePerPair, RingOk, ObjectRing, SessionRing;
    RingsOkByOwner(s);
    RingsOkByOwner(t);
    EmptyRing(s.references);
    forall r | r in t.references ensures RecordOk(t, r) { assert RecordOk(s, r); }
    forall x | x in t.objects ensures ObjectOk(t, x) { assert x in s.objects ==> ObjectOk(s, x); }
    forall x | x in t.sessions ensures SessionOk(t, x) { assert x in s.sessions ==> SessionOk(s, x); }
  }

  lemma EmptyRing(references: References)
    ensures RingOk([], 0, references) && forall p :: ObjectRing(p, [], references) && SessionRing(p, [], references)
  {
  }

  lemma DropSessionRings(s: State, t: State, q: Pointer)
    requires RingsOk(s) && t == s.(sessions := s.sessions - {q})
    requires forall r | r in s.references :: s.references[r].session != q
    ensures RingsOk(t)
  {
    hide RingsOk;
    RecordsAreOwned(s);
    UnlinkedKeepsRings(s, t);
  }

  lemma RecordsAreOwned(s: State)
    requires RingsOk(s)
    ensures forall r | r in s.references :: s.references[r].obj in s.objects && s.references[r].session in s.sessions
  {
    hide RingsCounted, OnePerPair, ObjectRing, SessionRing;
    assert forall r | r in s.references :: RecordOk(s, r);
  }

  lemma DropSessionKeeps(s: State, q: Pointer)
    requires Inv(s) && q in s.sessions && s.sessions[q].ring == []
    ensures Inv(s.(sessions := s.sessions - {q}))
    ensures forall r | r in s.references :: s.references[r].session != q
  {
    hide Counted, Acyclic, IdsOk, InUse, RingsOk;
    var t := s.(sessions := s.sessions - {q});
    NoReferencesLeft(s, q);
    DropSessionRings(s, t, q);
    OtherSessions(s, t);
  }

  /** Objects do not depend on the session table. */
  lemma OtherSessions(s: State, t: State)
    requires t.objects == s.objects && t.pins == s.pins && t.references == s.references
    ensures Counted(s) ==> Counted(t)
    ensures forall p | p in s.objects && ObjectOk(s, p) :: ObjectOk(t, p)
    ensures IdsOk(s) && t.sessions.Keys <= s.sessions.Keys
            && (forall q | q in t.sessions :: t.sessions[q].id == s.sessions[q].id)
            ==> IdsOk(t)
  {
  }

  lemma NewSessionId(s: State, q: Pointer, id: nat)
    requires IdsOk(s) && 1 <= id <= OBJECT_ID_MAX && forall x | x in s.sessions :: s.sessions[x].id != id
    ensures IdsOk(s.(sessions := s.sessions[q := Session(id, 0, [])]))
  {
  }

  lemma AddSessionKeeps(s: State, q: Pointer, id: nat)
    requires Inv(s) && q !in s.sessions && 1 <= id <= OBJECT_ID_MAX
    requires forall x | x in s.sessions :: s.sessions[x].id != id
    ensures Inv(s.(sessions := s.sessions[q := Session(id, 0, [])]))
  {
    hide Counted, Acyclic, IdsOk, InUse, RingsOk;
    var t := s.(sessions := s.sessions[q := Session(id, 0, [])]);
    OtherSessions(s, t);
    NewSessionId(s, q, id);
    RecordsAreOwned(s);
    UnlinkedKeepsRings(s, t);
  }

  // ----- creation -----

  /** A fresh object without references; whoever creates it must add one. */
  function Fresh(kind: Kind, id: nat, text: string): Object {
    Object(kind, id, 0, 0, 0, [], [], text)
  }

  ghost predicate FreshId(s: State, id: nat) {
    1 <= id <= OBJECT_ID_MAX && forall p | p in s.objects :: s.objects[p].id != id
  }

  lemma InsertKeepsAcyclic(objects: Objects, p: Pointer, o: Object)
    requires Acyclic(objects) && HoldsLive(objects) && p !in objects && o.holds == []
    ensures Acyclic(objects[p := o])
  {
    var rank :| Ranked(objects, rank);
    var objects', rank' := objects[p := o], rank[p := KindRank(o.kind)];
    forall q | q in objects' && q != p && objects'[q].kind.ListKind? && OnlyStrings(objects', objects'[q].holds)
      ensures OnlyStrings(objects, objects[q].holds)
    {
    }
    assert Ranked(objects', rank');
  }

  lemma AddedCounted(objects: Objects, slots: multiset<Hold>, p: Pointer, o: Object)
    requires CountedBy(objects, slots) && p !in objects && o.internal == 0 && o.lock == 0
    ensures CountedBy(objects[p := o], slots)
  {
    assert Hold(p, true) !in slots && Hold(p, false) !in slots;
  }

  lemma InsertCounted(s: State, p: Pointer, o: Object)
    requires Counted(s) && p !in s.objects && o.holds == [] && o.internal == 0 && o.lock == 0
    ensures Counted(s.(objects := s.objects[p := o]))
  {
    hide CountedBy;
    var slots := Slots(s);
    TotalInsert(s.objects, p, o);
    assert Slots(s.(objects := s.objects[p := o])) == slots;
    AddedCounted(s.objects, slots, p, o);
  }

  lemma InsertKeepsRings(s: State, p: Pointer, o: Object)
    requires RingsOk(s) && p !in s.objects && o.external == 0 && o.ring == []
    ensures RingsOk(s.(objects := s.objects[p := o]))
  {
    hide RingsOk;
    RecordsAreOwned(s);
    UnlinkedKeepsRings(s, s.(objects := s.objects[p := o]));
  }

  lemma CreateKeeps(s: State, p: Pointer, kind: Kind, id: nat, text: string)
    requires Inv(s) && p !in s.objects && FreshId(s, id)
    ensures InvBut(s.(objects := s.objects[p := Fresh(kind, id, text)]), {p})
  {
    hide RingsOk, Acyclic, Counted, HoldsLive;
    var o := Fresh(kind, id, text);
    HoldsAreLive(s);
    InsertKeepsAcyclic(s.objects, p, o);
    InsertCounted(s, p, o);
    InsertKeepsRings(s, p, o);
  }
}
