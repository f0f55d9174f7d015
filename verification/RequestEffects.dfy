/** What one request may change: destruction in cascade, expiry of a session, creation of an
    object, and edits of a single slot. */
module RequestEffects {
  import opened Wrappers
  import opened ObjectGraph
  import opened ReferenceRings
  import opened GraphSteps
  import opened GraphTheorems


  /** Object create flags; locked needs internal, external needs a session. */
  datatype CreateFlags = CreateFlags(internal: bool, external: bool, locked: bool) {
    predicate Ok(session: Option<Pointer>) {
      (internal || external) && (external ==> session.Some?) && (locked ==> internal)
    }
  }

  // ----- destruction -----

  /** The objects of s that t lacks were destroyed since, each exactly once. */
  ghost predicate Logged(s: State, t: State, log: seq<Pointer>, log': seq<Pointer>) {
    log <= log' && multiset(log'[|log|..]) == multiset(s.objects.Keys - t.objects.Keys)
  }

  lemma LoggedOnce(s: State, t: State, log: seq<Pointer>, log': seq<Pointer>)
    requires Logged(s, t, log, log')
    ensures |log| <= |log'| && log'[..|log|] == log
    ensures forall p :: multiset(log'[|log|..])[p] == if p in s.objects && p !in t.objects then 1 else 0
  {
  }

  /** A cascade of destructions: external references and contents of survivors stay. */
  ghost predicate Cascaded(s: State, t: State, log: seq<Pointer>, log': seq<Pointer>) {
    && t.sessions == s.sessions && t.references == s.references
    && t.objects.Keys <= s.objects.Keys
    && (forall p | p in t.objects :: SameButCounts(s.objects[p], t.objects[p]))
    && Logged(s, t, log, log')
  }

  lemma DifferenceSplits(a: set<Pointer>, b: set<Pointer>, c: set<Pointer>)
    requires c <= b <= a
    ensures multiset(a - c) == multiset(a - b) + multiset(b - c)
  {
    forall x
      ensures multiset(a - c)[x] == (multiset(a - b) + multiset(b - c))[x]
    {
      assert x in a - c <==> x in a - b || x in b - c;
    }
  }

  lemma LoggedTransitive(s: State, t: State, u: State, a: seq<Pointer>, b: seq<Pointer>, c: seq<Pointer>)
    requires Logged(s, t, a, b) && Logged(t, u, b, c)
    requires u.objects.Keys <= t.objects.Keys <= s.objects.Keys
    ensures Logged(s, u, a, c)
  {
    assert c[|a|..] == b[|a|..] + c[|b|..];
    DifferenceSplits(s.objects.Keys, t.objects.Keys, u.objects.Keys);
  }

  lemma CascadedTransitive(s: State, t: State, u: State, a: seq<Pointer>, b: seq<Pointer>, c: seq<Pointer>)
    requires Cascaded(s, t, a, b) && Cascaded(t, u, b, c)
    ensures Cascaded(s, u, a, c)
  {
    LoggedTransitive(s, t, u, a, b, c);
  }

  lemma VanishCascaded(s: State, p: Pointer, pins: multiset<Hold>, log: seq<Pointer>)
    requires p in s.objects
    ensures Cascaded(s, State(s.objects - {p}, s.sessions, s.references, pins), log, log + [p])
  {
    assert (log + [p])[|log|..] == [p];
    assert s.objects.Keys - (s.objects - {p}).Keys == {p};
  }

  lemma BumpCascaded(s: State, t: State, h: Hold, log: seq<Pointer>)
    requires h.target in s.objects && t.objects == Bump(s.objects, h, -1)
    requires t.sessions == s.sessions && t.references == s.references
    ensures Cascaded(s, t, log, log) && |t.objects| == |s.objects|
  {
    assert t.objects.Keys == s.objects.Keys;
    NothingLogged(s, t, log);
    NotMoreObjects(s.objects, t.objects);
    NotMoreObjects(t.objects, s.objects);
  }

  // ----- creation -----

  /** The new object has exactly the references that were asked for; nothing else changes. */
  ghost predicate Created(s: State, t: State, kind: Kind, text: string, flags: CreateFlags, session: Option<Pointer>,
                          p: Pointer) {
    && p in t.objects && t.objects == s.objects[p := t.objects[p]]
    && t.objects[p].kind == kind && t.objects[p].text == text && t.objects[p].holds == []
    && FreshId(s, t.objects[p].id)
    && t.pins == (if flags.internal then s.pins + multiset{Hold(p, flags.locked)} else s.pins)
    && (if flags.external && session.Some? then HeldChanged(s.references, t.references, p, session.value, 1)
        else t.references == s.references && t.sessions == s.sessions)
  }

  ghost function CreatedState(s: State, kind: Kind, text: string, flags: CreateFlags, session: Option<Pointer>,
                              p: Pointer, r: Pointer, id: nat): State
    requires flags.Ok(session) && (session.Some? ==> session.value in s.sessions)
  {
    var a := s.(objects := s.objects[p := Fresh(kind, id, text)]);
    var h := Hold(p, flags.locked);
    var b := if flags.internal then State(Bump(a.objects, h, 1), a.sessions, a.references, a.pins + multiset{h}) else a;
    if flags.external then Link(b, p, session.value, r) else b
  }

  lemma CreatedKeeps(s: State, kind: Kind, text: string, flags: CreateFlags, session: Option<Pointer>,
                     p: Pointer, r: Pointer, id: nat)
    requires Inv(s) && p !in s.objects && (flags.external ==> r !in s.references) && FreshId(s, id)
    requires flags.Ok(session) && (session.Some? ==> session.value in s.sessions)
    requires kind.ListKind? && flags.internal ==> flags.locked
    ensures Inv(CreatedState(s, kind, text, flags, session, p, r, id))
    ensures Created(s, CreatedState(s, kind, text, flags, session, p, r, id), kind, text, flags, session, p)
  {
    hide InvBut, HeldChanged;
    var a := s.(objects := s.objects[p := Fresh(kind, id, text)]);
    CreateKeeps(s, p, kind, id, text);
    var h := Hold(p, flags.locked);
    var b := a;
    var dying := {p};
    if flags.internal {
      AcquireKeeps(a, h, {p});
      b := State(Bump(a.objects, h, 1), a.sessions, a.references, a.pins + multiset{h});
      dying := {};
      assert {p} - {p} == dying;
    }
    if flags.external {
      NoRecordsYet(s, p);
      LinkKeeps(b, p, session.value, r, dying);
      assert dying - {p} == {};
      LinkHeld(s, Link(b, p, session.value, r), p, session.value, r);
    }
  }

  lemma CreatedShape(s: State, kind: Kind, text: string, flags: CreateFlags, session: Option<Pointer>,
                     p: Pointer, r: Pointer, id: nat)
    requires flags.Ok(session) && (session.Some? ==> session.value in s.sessions)
    ensures CreatedState(s, kind, text, flags, session, p, r, id) == State(
              s.objects[p := Object(kind, id, if flags.internal then 1 else 0, if flags.external then 1 else 0,
                                    if flags.locked then 1 else 0, if flags.external then [r] else [], [], text)],
              if flags.external then
                var n := s.sessions[session.value];
                s.sessions[session.value := n.(external := n.external + 1, ring := n.ring + [r])]
              else s.sessions,
              if flags.external then s.references[r := Reference(p, session.value, 1)] else s.references,
              if flags.internal then s.pins + multiset{Hold(p, flags.locked)} else s.pins)
  {
    assert [] + [r] == [r];
  }

  // ----- slots -----

  /** Survivors are unchanged, except that x now holds holds. */
  ghost predicate RetainedBut(s: State, t: State, x: Pointer, holds: seq<Hold>) {
    && t.objects.Keys <= s.objects.Keys
    && (forall p | p in t.objects ::
          && t.objects[p].kind == s.objects[p].kind && t.objects[p].id == s.objects[p].id
          && t.objects[p].text == s.objects[p].text
          && t.objects[p].external == s.objects[p].external && t.objects[p].ring == s.objects[p].ring
          && t.objects[p].holds == if p == x then holds else s.objects[p].holds)
  }

  /** List x got one more item; no object appeared or disappeared. */
  ghost predicate Appended(s: State, t: State, x: Pointer, h: Hold) {
    && x in s.objects && t.objects.Keys == s.objects.Keys
    && RetainedBut(s, t, x, s.objects[x].holds + [h])
  }

  lemma IsAppended(s: State, t: State, x: Pointer, h: Hold)
    requires x in s.objects && h.target in s.objects
    requires t.objects == Bump(s.objects, h, 1)[x := Bump(s.objects, h, 1)[x].(holds := s.objects[x].holds + [h])]
    ensures Appended(s, t, x, h)
    ensures x in t.objects && |t.objects[x].holds| == |s.objects[x].holds| + 1
    ensures forall k | 0 <= k < |s.objects[x].holds| :: t.objects[x].holds[k] == s.objects[x].holds[k]
    ensures t.objects[x].holds[|s.objects[x].holds|] == h
    ensures h.target != x ==> t.objects[x].lock == s.objects[x].lock
  {
  }

  lemma ItemsMoveUp(s: State, t: State, x: Pointer, i: nat)
    requires x in s.objects && x in t.objects && i < |s.objects[x].holds|
    requires RetainedBut(s, t, x, WithoutSlot(s.objects[x].holds, i))
    ensures |t.objects[x].holds| == |s.objects[x].holds| - 1
    ensures forall k | 0 <= k < i :: t.objects[x].holds[k] == s.objects[x].holds[k]
    ensures forall k | i <= k < |t.objects[x].holds| :: t.objects[x].holds[k] == s.objects[x].holds[k + 1]
  {
  }

  /** Removing the item that was appended last restores everything. */
  lemma AppendedAndRemoved(s: State, t: State, u: State, x: Pointer, h: Hold)
    requires Inv(s) && Inv(u) && u.pins == s.pins && u.sessions == s.sessions && u.references == s.references
    requires Appended(s, t, x, h)
    requires RetainedBut(t, u, x, WithoutSlot(t.objects[x].holds, |s.objects[x].holds|))
    ensures u == s
  {
    hide Inv;
    assert WithoutSlot(t.objects[x].holds, |s.objects[x].holds|) == s.objects[x].holds;
    StateIsDetermined(s, u);
  }

  lemma SlotRemoved(s: State, t: State, u: State, x: Pointer, i: nat, log: seq<Pointer>, log': seq<Pointer>)
    requires x in s.objects && i < |s.objects[x].holds|
    requires t.objects == s.objects[x := s.objects[x].(holds := WithoutSlot(s.objects[x].holds, i))]
    requires t.sessions == s.sessions && t.references == s.references
    requires Cascaded(t, u, log, log')
    ensures RetainedBut(s, u, x, WithoutSlot(s.objects[x].holds, i)) && Logged(s, u, log, log')
    ensures u.sessions == s.sessions && u.references == s.references
  {
    assert t.objects.Keys == s.objects.Keys;
  }

  lemma LockNotNegative(s: State, x: Pointer)
    requires Inv(s) && x in s.objects
    ensures s.objects[x].lock >= 0
  {
    hide Acyclic, IdsOk;
    CountsNonNegative(s, x);
  }

  lemma ItemIsLive(s: State, x: Pointer, i: nat)
    requires Inv(s) && x in s.objects && i < |s.objects[x].holds|
    ensures s.objects[x].holds[i].target in s.objects
  {
    hide RingsOk, Acyclic, IdsOk, InUse;
    HoldsAreLive(s);
    assert s.objects[x].holds[i] in s.objects[x].holds;
  }

  /** Nothing holds an unlocked list, so it lives by pins and sessions alone. */
  lemma UnlockedStays(s: State, t: State, x: Pointer)
    requires Inv(s) && Inv(t) && x in s.objects && s.objects[x].kind.ListKind? && s.objects[x].lock == 0
    requires t.pins == s.pins && t.references == s.references
    ensures x in t.objects
  {
    hide RingsOk, Acyclic, IdsOk, InUse;
    UnlockedIsUnheld(s, x);
    var root, q := SomeoneHolds(s, x);
    LiveIsClosed(t);
  }

  lemma NoRecordsYet(s: State, p: Pointer)
    requires Inv(s) && p !in s.objects
    ensures forall t, q :: !IsRecord(s.references, t, p, q)
  {
    hide Counted, RingsCounted, Acyclic, IdsOk, InUse;
    forall t, q
      ensures !IsRecord(s.references, t, p, q)
    {
      if t in s.references { assert RecordOk(s, t); }
    }
  }

  lemma LinkHeld(s: State, t: State, p: Pointer, q: Pointer, r: Pointer)
    requires Inv(s) && Inv(t) && r !in s.references && t.references == s.references[r := Reference(p, q, 1)]
    ensures HeldChanged(s.references, t.references, p, q, 1)
  {
    hide Counted, RingsCounted, Acyclic, IdsOk, InUse, HeldChanged;
    HeldAfterUpdate(s.references, r, Reference(p, q, 1));
  }

  lemma RecordedIsLive(s: State, r: Pointer)
    requires r in s.references
    ensures Inv(s) ==> s.references[r].obj in s.objects
  {
    if Inv(s) {
      assert RecordOk(s, r);
    }
  }

  lemma IdsOfInv(s: State, t: State)
    requires Inv(s) && t.objects == s.objects && t.sessions.Keys == s.sessions.Keys
    requires forall q | q in t.sessions :: t.sessions[q].id == s.sessions[q].id
    ensures IdsOk(t)
    ensures forall id :: FreshId(t, id) ==> FreshId(s, id)
  {
    hide Counted, RingsOk, Acyclic, InUse;
  }

  ghost predicate IdUsed(objects: Objects, id: nat) {
    exists p :: p in objects && objects[p].id == id
  }

  lemma Unchanged(s: State, log: seq<Pointer>)
    ensures Retained(s, s) && Logged(s, s, log, log)
  {
    NothingLogged(s, s, log);
  }

  lemma UsedIsInv(s: State, p: Pointer)
    requires InvBut(s, {p}) && p in s.objects && (s.objects[p].internal != 0 || s.objects[p].external != 0)
    ensures Inv(s)
  {
    hide Counted, RingsOk, Acyclic, IdsOk;
    CountsNonNegative(s, p);
  }

  lemma StillInv(s: State, p: Pointer)
    requires Inv(s)
    ensures InvBut(s, {p})
  {
  }

  lemma NoRecords(s: State, p: Pointer, q: Pointer)
    requires Inv(s) && p in s.objects && s.objects[p].external == 0
    ensures forall t :: !IsRecord(s.references, t, p, q)
  {
    hide Counted, Acyclic, IdsOk, InUse;
    forall t
      ensures !IsRecord(s.references, t, p, q)
    {
      if IsRecord(s.references, t, p, q) {
        assert RecordOk(s, t);
        RingPositive(s, p);
      }
    }
  }

  lemma RingPositive(s: State, p: Pointer)
    requires RingsOk(s) && p in s.objects && s.objects[p].ring != []
    ensures s.objects[p].external > 0
  {
    assert RingOk(s.objects[p].ring, s.objects[p].external, s.references);
    forall r | r in s.objects[p].ring
      ensures r in s.references && s.references[r].count > 0
    {
      assert RecordOk(s, r);
    }
    RingSumPositive(s.objects[p].ring, s.references);
  }

  lemma RingsOnly(s: State, t: State, p: Pointer, log: seq<Pointer>)
    requires SameButRings(s, t, p)
    ensures Retained(s, t) && Logged(s, t, log, log)
  {
    NothingLogged(s, t, log);
  }

  lemma CascadedIsRetained(s: State, t: State, u: State, log: seq<Pointer>, log': seq<Pointer>)
    requires Retained(s, t) && t.objects.Keys == s.objects.Keys && Cascaded(t, u, log, log')
    ensures Retained(s, u) && Logged(s, u, log, log')
    ensures u.sessions == t.sessions && u.references == t.references
  {
  }

  // ----- expiry -----

  /** Some of the references of session q are gone, with the objects that depended on them. */
  ghost predicate Expiring(s: State, t: State, q: Pointer, log: seq<Pointer>, log': seq<Pointer>) {
    && t.pins == s.pins && Retained(s, t) && Logged(s, t, log, log')
    && t.sessions.Keys == s.sessions.Keys
    && (forall x | x in s.sessions && x != q :: t.sessions[x] == s.sessions[x])
    && (forall r | r in t.references :: r in s.references && t.references[r] == s.references[r])
    && (forall r | r in s.references && r !in t.references :: s.references[r].session == q)
  }

  lemma ExpiringStarts(s: State, q: Pointer, log: seq<Pointer>)
    ensures Expiring(s, s, q, log, log)
  {
    Unchanged(s, log);
  }

  lemma RingHead(s: State, q: Pointer)
    requires Inv(s) && q in s.sessions && s.sessions[q].ring != []
    ensures s.sessions[q].ring[0] in s.references && s.references[s.sessions[q].ring[0]].session == q
  {
    assert SessionRing(q, s.sessions[q].ring, s.references);
  }

  lemma ExpiringStep(s: State, t: State, q: Pointer, r: Pointer, u: State, log: seq<Pointer>, log': seq<Pointer>,
                     log'': seq<Pointer>)
    requires Expiring(s, t, q, log, log') && q in t.sessions && r in t.references && t.references[r].session == q
    requires RecordOk(t, r) && u.pins == t.pins && Cascaded(Unlink(t, r), u, log', log'')
    ensures Expiring(s, u, q, log, log'')
  {
    hide Logged;
    assert Retained(s, u);
    CascadedLog(s, t, Unlink(t, r), u, log, log', log'');
  }

  lemma CascadedLog(s: State, t: State, v: State, u: State, log: seq<Pointer>, log': seq<Pointer>, log'': seq<Pointer>)
    requires Logged(s, t, log, log') && t.objects.Keys <= s.objects.Keys
    requires v.objects.Keys == t.objects.Keys && Cascaded(v, u, log', log'')
    ensures Logged(s, u, log, log'')
  {
    LoggedTransitive(s, t, u, log, log', log'');
  }

  lemma SessionsKept(s: State, t: State, log: seq<Pointer>, log': seq<Pointer>)
    requires Cascaded(s, t, log, log')
    ensures t.sessions == s.sessions
  {
  }

  lemma ExpiringEnds(s: State, t: State, q: Pointer, log: seq<Pointer>, log': seq<Pointer>)
    requires Inv(t) && q in t.sessions && t.sessions[q].ring == [] && Expiring(s, t, q, log, log')
    ensures t.pins == s.pins && t.references == OthersOf(s.references, q) && t.sessions - {q} == s.sessions - {q}
    ensures forall u: State | u.objects == t.objects :: Retained(s, u) && Logged(s, u, log, log')
  {
    hide Counted, RingsCounted, Acyclic, IdsOk, InUse;
    forall r | r in t.references
      ensures t.references[r].session != q
    {
      assert RecordOk(t, r);
    }
  }

  lemma NoHold(pins: multiset<Hold>, holds: seq<Hold>)
    ensures pins - multiset(holds[..0]) == pins && holds[..|holds|] == holds
  {
    assert holds[..0] == [];
  }

  lemma NextHold(pins: multiset<Hold>, holds: seq<Hold>, i: nat)
    requires i < |holds| && multiset(holds) <= pins
    ensures holds[i] in pins - multiset(holds[..i])
    ensures pins - multiset(holds[..i]) - multiset{holds[i]} == pins - multiset(holds[..i+1])
  {
    assert holds == holds[..i] + [holds[i]] + holds[i+1..];
    assert holds[..i+1] == holds[..i] + [holds[i]];
  }

  lemma StillCascaded(s: State, log: seq<Pointer>)
    ensures Cascaded(s, s, log, log)
  {
    NothingLogged(s, s, log);
  }

  lemma CascadedIsSmaller(s: State, t: State, log: seq<Pointer>, log': seq<Pointer>)
    requires Cascaded(s, t, log, log')
    ensures |t.objects| <= |s.objects|
  {
    NotMoreObjects(s.objects, t.objects);
  }

  lemma EmptyIsValid()
    ensures Inv(State(map[], map[], map[], multiset{}))
  {
    assert Ranked(map[], map[]);
  }

  lemma NothingLogged(s: State, t: State, log: seq<Pointer>)
    requires s.objects.Keys == t.objects.Keys
    ensures Logged(s, t, log, log)
  {
    assert log[|log|..] == [];
    assert s.objects.Keys - t.objects.Keys == {};
  }

  lemma UnusedNow(o: Object)
    requires o.internal == 0 && o.external == 0
    ensures !InUse(o)
  {
  }

  lemma UsedNow(o: Object)
    requires o.internal > 0 || o.external > 0
    requires o.internal >= 0 && o.external >= 0
    ensures InUse(o)
  {
  }

  lemma FewerObjects(objects: Objects, p: Pointer)
    requires p in objects
    ensures |objects - {p}| < |objects|
  {
    assert (objects - {p}).Keys == objects.Keys - {p};
  }

  lemma NotMoreObjects(a: Objects, b: Objects)
    requires b.Keys <= a.Keys
    ensures |b| <= |a|
  {
    SubsetSize(b.Keys, a.Keys);
    assert |b| == |b.Keys| && |a| == |a.Keys|;
  }

  lemma SubsetSize(a: set<Pointer>, b: set<Pointer>)
    requires a <= b
    ensures |a| <= |b|
  {
    assert b == a + (b - a);
  }

  // ----- locked strings and lists are left alone -----

  const LIST_MAX_LENGTH: nat := 65535

  /** No list is longer than list_append_to makes it. */
  ghost predicate ShortLists(objects: Objects) {
    forall p | p in objects && objects[p].kind.ListKind? :: |objects[p].holds| <= LIST_MAX_LENGTH
  }

  lemma SameObjectsRespect(s: State, t: State)
    requires t.objects == s.objects
    ensures Respects(s, t) && (ShortLists(s.objects) ==> ShortLists(t.objects))
  {
  }

  lemma RetainedRespects(s: State, t: State)
    requires Retained(s, t)
    ensures Respects(s, t) && (ShortLists(s.objects) ==> ShortLists(t.objects))
  {
  }

  lemma CascadeRetains(s: State, t: State, log: seq<Pointer>, log': seq<Pointer>)
    requires Cascaded(s, t, log, log')
    ensures Retained(s, t)
  {
  }

  lemma CreatedRespects(s: State, t: State, kind: Kind, text: string, flags: CreateFlags, session: Option<Pointer>,
                        p: Pointer)
    requires Created(s, t, kind, text, flags, session, p) && p !in s.objects
    ensures Respects(s, t) && (ShortLists(s.objects) ==> ShortLists(t.objects))
  {
  }

  lemma RingsRespect(s: State, t: State, p: Pointer)
    requires SameButRings(s, t, p)
    ensures Respects(s, t) && (ShortLists(s.objects) ==> ShortLists(t.objects))
  {
  }

  lemma BumpRespects(s: State, t: State, h: Hold)
    requires h.target in s.objects && t.objects == Bump(s.objects, h, 1)
    ensures Respects(s, t) && (ShortLists(s.objects) ==> ShortLists(t.objects))
  {
  }

  lemma SlotRespects(s: State, t: State, x: Pointer, holds: seq<Hold>)
    requires RetainedBut(s, t, x, holds) && x in s.objects
    requires s.objects[x].kind.ListKind? ==> s.objects[x].lock <= 0
    requires |holds| <= |s.objects[x].holds|
    ensures Respects(s, t) && (ShortLists(s.objects) ==> ShortLists(t.objects))
  {
  }

  lemma AppendRespects(s: State, t: State, x: Pointer, itemId: nat)
    requires x in s.objects && s.objects[x].lock <= 0 && |s.objects[x].holds| != LIST_MAX_LENGTH
    requires exists item :: item in s.objects && s.objects[item].id == itemId && Appended(s, t, x, Hold(item, true))
    ensures Respects(s, t) && (ShortLists(s.objects) ==> ShortLists(t.objects))
  {
  }

  lemma AdoptRespects(s: State, t: State, x: Pointer, h: Hold)
    requires x in s.objects && !s.objects[x].kind.ListKind?
    requires t.objects == s.objects[x := s.objects[x].(holds := s.objects[x].holds + [h])]
    ensures Respects(s, t) && (ShortLists(s.objects) ==> ShortLists(t.objects))
  {
  }

  lemma EditRespects(s: State, t: State, x: Pointer, text: string)
    requires x in s.objects
    requires t == s || (s.objects[x].lock <= 0 && t.objects == s.objects[x := s.objects[x].(text := text)])
    ensures Respects(s, t) && (ShortLists(s.objects) ==> ShortLists(t.objects))
  {
  }

  // ----- taking and giving back pins -----

  /** Some pins were taken or given back; external references and contents stay. */
  ghost predicate Touched(s: State, t: State) {
    && t.sessions == s.sessions && t.references == s.references
    && t.objects.Keys <= s.objects.Keys
    && forall p | p in t.objects :: SameButCounts(s.objects[p], t.objects[p])
  }

  /** The same objects up to internal and lock counts. */
  ghost predicate Alike(a: Objects, b: Objects) {
    a.Keys == b.Keys && forall p | p in a :: SameButCounts(a[p], b[p])
  }

  lemma TouchedTransitive(s: State, t: State, u: State)
    requires Touched(s, t) && Touched(t, u)
    ensures Touched(s, u)
  {
  }

  lemma CascadeTouches(s: State, t: State, log: seq<Pointer>, log': seq<Pointer>)
    requires Cascaded(s, t, log, log')
    ensures Touched(s, t)
  {
  }

  lemma BumpTouches(s: State, t: State, h: Hold)
    requires h.target in s.objects && t.objects == Bump(s.objects, h, 1)
    requires t.sessions == s.sessions && t.references == s.references
    ensures Touched(s, t)
  {
  }

  /** Once all pins taken are given back, everything is as before: every count, and every
      object still alive. */
  lemma GivenBack(s: State, t: State)
    requires Inv(s) && Inv(t) && Touched(s, t) && s.pins == t.pins
    ensures s == t
  {
    StateIsDetermined(s, t);
  }

  /** A pinned object is live. */
  lemma PinIsLive(s: State, h: Hold)
    requires Inv(s) && h in s.pins
    ensures h.target in s.objects
  {
    hide RingsOk, Acyclic, IdsOk, InUse;
    assert h in Slots(s);
  }
}
