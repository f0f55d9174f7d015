/** The running inventory: objects, sessions and external references, changed in place by
    the requests of object.c, list.c, session.c and inventory.c. */
module Inventory {
  import opened Wrappers
  import opened ObjectGraph
  import opened ReferenceRings
  import opened GraphSteps
  import opened GraphTheorems
  import opened RequestEffects
  import opened IdAllocation

  datatype ErrorCode =
    | Success
    | InternalError
    | InvalidOperation
    | NotSupported
    | NoFreeMemory
    | NoFreeObjectId
    | NoFreeSessionId
    | UnknownObjectId
    | OutOfRange
    | ObjectIsLocked
    | WrongListItemType

  /** What clients, programs and processes can ask for, together with what the memory
      allocator answers. */
  datatype Request =
    | OpenSession(lifetime: nat, address: Pointer, memory: bool, timer: Option<ErrorCode>, tableMemory: bool)
    | Expire(q: Pointer)
    | Create(kind: Kind, text: string, flags: CreateFlags, session: Option<Pointer>, address: Pointer,
             recordAddress: Pointer, recordMemory: bool, tableMemory: bool)
    | Share(p: Pointer, q: Pointer, address: Pointer, memory: bool)
    | Release(p: Pointer, q: Pointer)
    | Append(x: Pointer, itemId: nat, memory: bool)
    | Remove(x: Pointer, index: nat)
    | GetItem(x: Pointer, index: nat, q: Pointer, address: Pointer, memory: bool)
    | Edit(x: Pointer, text: string)
    | Pin(h: Hold)
    | Unpin(h: Hold)
    | Adopt(x: Pointer, h: Hold)
    | GiveUp(x: Pointer, i: nat)

  const SESSION_MAX_LIFETIME: nat := 3600

  ghost predicate IsTyped(objects: Objects, kind: Kind, id: nat, p: Pointer) {
    p in objects && objects[p].kind == kind && objects[p].id == id
  }

  /** An object of this kind has the identifier. */
  ghost predicate Named(objects: Objects, kind: Kind, id: nat) {
    exists x :: IsTyped(objects, kind, id, x)
  }

  /** The identifier names an empty string. */
  ghost predicate Blank(objects: Objects, id: nat) {
    exists x :: IsTyped(objects, StringKind, id, x) && objects[x].text == ""
  }

  /** The identifier names a list with an item that is no string. */
  ghost predicate Mixed(objects: Objects, id: nat) {
    exists x, h :: IsTyped(objects, ListKind, id, x) && h in objects[x].holds
                   && !(h.target in objects && objects[h.target].kind.StringKind?)
  }

  lemma TouchedNothing(s: State)
    ensures Touched(s, s)
  {
  }

  function IdsOfObjects(objects: Objects): map<Pointer, nat> {
    map p | p in objects :: objects[p].id
  }

  function IdsOfSessions(sessions: map<Pointer, Session>): map<Pointer, nat> {
    map q | q in sessions :: sessions[q].id
  }

  /** The identifiers of all entries of a table, in any order. */
  method CollectIds(table: map<Pointer, nat>) returns (ids: seq<Id>)
    requires forall p | p in table :: table[p] <= ID_MAX
    ensures forall id: Id :: id in Used([ids]) <==> id in table.Values
  {
    ids := [];
    var todo := table.Keys;
    while todo != {}
      invariant todo <= table.Keys
      invariant forall p | p in table && p !in todo :: table[p] in ids
      invariant forall i | i in ids :: i in table.Values
    {
      var p :| p in todo;
      ids := ids + [table[p]];
      todo := todo - {p};
    }
    InUsed(ids);
  }

  lemma InUsed(ids: seq<Id>)
    ensures forall id: Id :: id in Used([ids]) <==> id in ids
  {
    forall id: Id | id in ids
      ensures id in Used([ids])
    {
      var k :| 0 <= k < |ids| && ids[k] == id;
      assert [ids][0][k] == id;
    }
  }

  lemma UsedIds(objects: Objects, ids: seq<Id>)
    requires forall id: Id :: id in Used([ids]) <==> id in IdsOfObjects(objects).Values
    ensures forall id: Id :: id in Used([ids]) <==> IdUsed(objects, id)
  {
    var table := IdsOfObjects(objects);
    forall id: Id
      ensures id in table.Values <==> IdUsed(objects, id)
    {
      if p :| p in objects && objects[p].id == id {
        assert p in table && table[p] == id;
      }
    }
  }

  ghost predicate SessionIdUsed(sessions: map<Pointer, Session>, id: nat) {
    exists q :: q in sessions && sessions[q].id == id
  }

  ghost function ObjectIds(objects: Objects): (ids: set<nat>)
    ensures forall id :: id in ids <==> IdUsed(objects, id)
  {
    set p | p in objects :: objects[p].id
  }

  ghost function SessionIds(sessions: map<Pointer, Session>): (ids: set<nat>)
    ensures forall id :: id in ids <==> SessionIdUsed(sessions, id)
  {
    set q | q in sessions :: sessions[q].id
  }

  ghost predicate AllIdsUsed(objects: Objects) {
    forall id | 1 <= id <= OBJECT_ID_MAX :: IdUsed(objects, id)
  }

  /** Running out of identifiers takes as many objects as there are identifiers. */
  lemma {:induction false} IdsNeedObjects(objects: Objects, n: nat)
    requires forall id | 1 <= id <= n :: IdUsed(objects, id)
    ensures n <= |objects|
  {
    if n > 0 {
      assert IdUsed(objects, n);
      var p :| p in objects && objects[p].id == n;
      var others := objects - {p};
      forall id | 1 <= id <= n - 1
        ensures IdUsed(others, id)
      {
        assert IdUsed(objects, id);
        var q :| q in objects && objects[q].id == id;
        assert q in others;
      }
      assert objects.Keys == others.Keys + {p};
      IdsNeedObjects(others, n - 1);
    }
  }

  lemma {:induction false} ObjectsNeedIds(objects: Objects, ids: set<nat>)
    requires forall p | p in objects :: objects[p].id in ids
    requires forall p, q | p in objects && q in objects && objects[p].id == objects[q].id :: p == q
    ensures |objects| <= |ids|
  {
    if p :| p in objects {
      var others := objects - {p};
      assert objects.Keys == others.Keys + {p};
      ObjectsNeedIds(others, ids - {objects[p].id});
    }
  }

  function IdsTo(n: nat): (ids: set<nat>)
    ensures |ids| == n && forall id :: id in ids <==> 1 <= id <= n
  {
    if n == 0 then {} else IdsTo(n - 1) + {n}
  }

  /** Identifiers run out exactly when there are as many objects as identifiers. */
  lemma OutOfIds(s: State)
    requires IdsOk(s)
    ensures |s.objects| <= OBJECT_ID_MAX && (AllIdsUsed(s.objects) <==> |s.objects| == OBJECT_ID_MAX)
  {
    hide IdsTo;
    ObjectsNeedIds(s.objects, IdsTo(OBJECT_ID_MAX));
    if AllIdsUsed(s.objects) {
      IdsNeedObjects(s.objects, OBJECT_ID_MAX);
    } else {
      var id :| 1 <= id <= OBJECT_ID_MAX && !IdUsed(s.objects, id);
      ObjectsNeedIds(s.objects, IdsTo(OBJECT_ID_MAX) - {id});
    }
  }

  /** A creation that takes the external reference and then fails. */
  ghost predicate LeavesDangling(objects: Objects, flags: CreateFlags, session: Option<Pointer>,
                                 recordMemory: bool, tableMemory: bool) {
    flags.Ok(session) && flags.external && recordMemory && (!tableMemory || AllIdsUsed(objects))
  }

  /** The same for a request in a state in which it can be made. */
  ghost predicate Dangles(s: State, r: Request) {
    Possible(s, r) && r.Create? && LeavesDangling(s.objects, r.flags, r.session, r.recordMemory, r.tableMemory)
  }

  predicate Possible(s: State, r: Request) {
    match r
    case OpenSession(_, address, _, timer, _) => address !in s.sessions && timer != Some(Success)
    case Expire(q) => q in s.sessions
    case Create(kind, _, flags, session, address, recordAddress, _, _) =>
      && address !in s.objects && recordAddress !in s.references
      && (session.Some? ==> session.value in s.sessions) && (kind.ListKind? && flags.internal ==> flags.locked)
    case Share(p, q, address, _) => p in s.objects && q in s.sessions && address !in s.references
    case Release(p, q) => p in s.objects && q in s.sessions
    case Append(x, _, _) => IsList(s, x)
    case Remove(x, _) => IsList(s, x)
    case GetItem(x, _, q, address, _) => IsList(s, x) && q in s.sessions && address !in s.references
    case Edit(x, _) => x in s.objects && s.objects[x].kind.StringKind?
    case Pin(h) => h.target in s.objects && (s.objects[h.target].kind.ListKind? ==> h.locked)
    case Unpin(h) => h in s.pins
    case Adopt(x, h) => h in s.pins && NoList(s, x) && MayHold(s.objects, s.objects[x].kind, h)
    case GiveUp(x, i) => NoList(s, x) && i < |s.objects[x].holds|
  }

  lemma ImpossibleDoesNot(s: State, r: Request)
    requires !Possible(s, r)
    ensures !Dangles(s, r)
  {
  }

  predicate IsList(s: State, x: Pointer) { x in s.objects && s.objects[x].kind.ListKind? }

  predicate NoList(s: State, x: Pointer) { x in s.objects && !s.objects[x].kind.ListKind? }

  lemma UsedSessionIds(sessions: map<Pointer, Session>, ids: seq<Id>)
    requires forall id: Id :: id in Used([ids]) <==> id in IdsOfSessions(sessions).Values
    ensures forall id: Id :: id in Used([ids]) <==> SessionIdUsed(sessions, id)
  {
    var table := IdsOfSessions(sessions);
    forall id: Id
      ensures id in table.Values <==> SessionIdUsed(sessions, id)
    {
      if q :| q in sessions && sessions[q].id == id {
        assert q in table && table[q] == id;
      }
    }
  }

  // ----- identifiers over runs -----

  ghost predicate NewObject(s: State, t: State, r: Request) {
    r.Create? && r.address !in s.objects && r.address in t.objects
  }

  ghost predicate NewSession(s: State, t: State, r: Request) {
    r.OpenSession? && r.address !in s.sessions && r.address in t.sessions
  }

  /** One request as the counter of object identifiers sees it. */
  ghost predicate ObjectCounted(s: State, c: Id, r: Request, t: State, c': Id) {
    && CountsOn(ObjectIds(s.objects), c, c')
    && (NewObject(s, t, r) ==> GivesOut(ObjectIds(s.objects), c, t.objects[r.address].id, c'))
  }

  ghost predicate SessionCounted(s: State, c: Id, r: Request, t: State, c': Id) {
    && CountsOn(SessionIds(s.sessions), c, c')
    && (NewSession(s, t, r) ==> GivesOut(SessionIds(s.sessions), c, t.sessions[r.address].id, c'))
  }

  ghost predicate ObjectsCounted(trace: seq<State>, counters: seq<Id>, requests: seq<Request>) {
    && |counters| == |trace| <= |requests| + 1
    && forall k | 0 <= k < |trace| - 1 ::
         ObjectCounted(trace[k], counters[k], requests[k], trace[k + 1], counters[k + 1])
  }

  ghost predicate SessionsCounted(trace: seq<State>, counters: seq<Id>, requests: seq<Request>) {
    && |counters| == |trace| <= |requests| + 1
    && forall k | 0 <= k < |trace| - 1 ::
         SessionCounted(trace[k], counters[k], requests[k], trace[k + 1], counters[k + 1])
  }

  /** The identifier of a destroyed object does not come back before every other one was in use, or
      given out, since it was given out itself. */
  lemma ObjectIdsGoRound(trace: seq<State>, counters: seq<Id>, requests: seq<Request>, i: nat, j: nat, x: nat)
    requires ObjectsCounted(trace, counters, requests) && i < j < |trace| - 1
    requires NewObject(trace[i], trace[i + 1], requests[i]) && NewObject(trace[j], trace[j + 1], requests[j])
    requires trace[i + 1].objects[requests[i].address].id == trace[j + 1].objects[requests[j].address].id != x
    requires 1 <= x <= OBJECT_ID_MAX
    ensures exists k :: i < k <= j &&
              (IdUsed(trace[k].objects, x) ||
               GivesOut(ObjectIds(trace[k].objects), counters[k], x, counters[k + 1]))
  {
    hide GivesOut, CountsOn;
    var used := seq(|trace|, k requires 0 <= k < |trace| => ObjectIds(trace[k].objects));
    assert forall k | 0 <= k < |trace| - 1 ::
        ObjectCounted(trace[k], counters[k], requests[k], trace[k + 1], counters[k + 1]);
    GoesRound(used, counters, i, j, trace[i + 1].objects[requests[i].address].id, x);
    var k :| i < k <= j && Taken(used, counters, k, x);
    assert IdUsed(trace[k].objects, x) || GivesOut(ObjectIds(trace[k].objects), counters[k], x, counters[k + 1]);
  }

  /** The same for the identifiers of sessions. */
  lemma SessionIdsGoRound(trace: seq<State>, counters: seq<Id>, requests: seq<Request>, i: nat, j: nat, x: nat)
    requires SessionsCounted(trace, counters, requests) && i < j < |trace| - 1
    requires NewSession(trace[i], trace[i + 1], requests[i]) && NewSession(trace[j], trace[j + 1], requests[j])
    requires trace[i + 1].sessions[requests[i].address].id == trace[j + 1].sessions[requests[j].address].id != x
    requires 1 <= x <= ID_MAX
    ensures exists k :: i < k <= j &&
              (SessionIdUsed(trace[k].sessions, x) ||
               GivesOut(SessionIds(trace[k].sessions), counters[k], x, counters[k + 1]))
  {
    hide GivesOut, CountsOn;
    var used := seq(|trace|, k requires 0 <= k < |trace| => SessionIds(trace[k].sessions));
    assert forall k | 0 <= k < |trace| - 1 ::
        SessionCounted(trace[k], counters[k], requests[k], trace[k + 1], counters[k + 1]);
    GoesRound(used, counters, i, j, trace[i + 1].sessions[requests[i].address].id, x);
    var k :| i < k <= j && Taken(used, counters, k, x);
    assert SessionIdUsed(trace[k].sessions, x)
           || GivesOut(SessionIds(trace[k].sessions), counters[k], x, counters[k + 1]);
  }

  class Inventory {
    var objects: Objects
    var sessions: map<Pointer, Session>
    var references: References
    var nextObjectId: Id
    var nextSessionId: Id
    var pins: multiset<Hold>            // references kept in fields outside of the graph
    ghost var destroyed: seq<Pointer>   // calls of object->destroy, in order

    ghost function View(): State
      reads this
    {
      State(objects, sessions, references, pins)
    }

    ghost predicate Valid()
      reads this
    {
      Inv(View())
    }

    /** Only creations move the counters of identifiers. */
    twostate predicate CountersKept()
      reads this
    {
      nextObjectId == old(nextObjectId) && nextSessionId == old(nextSessionId)
    }

    constructor ()
      ensures Valid() && View() == State(map[], map[], map[], multiset{}) && destroyed == []
      ensures nextObjectId == 1 && nextSessionId == 1
    {
      hide InvBut;
      objects, sessions, references := map[], map[], map[];
      nextObjectId, nextSessionId := 1, 1;
      pins, destroyed := multiset{}, [];
      new;
      EmptyIsValid();
    }

    // ----- releasing internal references -----

    /** object_unlock (for a locked hold) and object_remove_internal_reference. The error
        branches for counts that are already zero cannot be taken. */
    method ReleaseHold(h: Hold)
      requires Valid() && h in pins
      modifies this
      ensures Valid() && pins == old(pins) - multiset{h}
      ensures Cascaded(old(View()), View(), old(destroyed), destroyed)
      ensures CountersKept()
      decreases |objects|, 1
    {
      hide Counted, RingsOk, Acyclic, IdsOk, InUse, Cascaded, Logged;
      ghost var s := View();
      ReleaseKeeps(s, h);
      var p := h.target;
      if h.locked {
        objects := objects[p := objects[p].(lock := objects[p].lock - 1)];
      }
      objects := objects[p := objects[p].(internal := objects[p].internal - 1)];
      pins := pins - multiset{h};
      assert objects == Bump(s.objects, h, -1);
      ghost var t := View();
      BumpCascaded(s, t, h, destroyed);
      if objects[p].internal == 0 && objects[p].external == 0 {
        RemoveObject(p);
        CascadedTransitive(s, t, View(), old(destroyed), old(destroyed), destroyed);
      } else {
        CountsNonNegative(t, p);
        UsedNow(objects[p]);
      }
    }

    /** inventory_remove_object and object_destroy: the object leaves the inventory, then its
        destroy function gives up everything it holds, item by item. */
    method RemoveObject(p: Pointer)
      requires InvBut(View(), {p}) && p in objects && objects[p].internal == 0 && objects[p].external == 0
      modifies this
      ensures Valid() && pins == old(pins)
      ensures Cascaded(old(View()), View(), old(destroyed), destroyed)
      ensures CountersKept()
      decreases |objects|, 0
    {
      hide InvBut, InUse, Cascaded, Logged;
      ghost var s := View();
      UnusedNow(objects[p]);
      VanishKeeps(s, p);
      var holds := objects[p].holds;
      objects := objects - {p};
      pins := pins + multiset(holds);
      destroyed := destroyed + [p];
      assert Cascaded(s, View(), old(destroyed), destroyed) by { VanishCascaded(s, p, pins, old(destroyed)); }
      assert |objects| < |s.objects| by { FewerObjects(s.objects, p); }
      ghost var t, log := View(), destroyed;
      ReleaseAll(holds);
      CascadedTransitive(s, t, View(), old(destroyed), log, destroyed);
    }

    /** array_destroy with the function that unlocks and releases one item. */
    method ReleaseAll(holds: seq<Hold>)
      requires Valid() && multiset(holds) <= pins
      modifies this
      ensures Valid() && pins == old(pins) - multiset(holds)
      ensures Cascaded(old(View()), View(), old(destroyed), destroyed)
      ensures CountersKept()
      decreases |objects|, 2
    {
      hide Inv, InvBut, Cascaded, Logged;
      ghost var s := View();
      StillCascaded(s, destroyed);
      NoHold(pins, holds);
      var i := 0;
      while i < |holds|
        invariant 0 <= i <= |holds|
        invariant Valid() && pins == old(pins) - multiset(holds[..i])
        invariant Cascaded(s, View(), old(destroyed), destroyed)
        invariant |objects| <= |s.objects|
        invariant CountersKept()
      {
        ghost var t, log := View(), destroyed;
        NextHold(old(pins), holds, i);
        ReleaseHold(holds[i]);
        CascadedTransitive(s, t, View(), old(destroyed), log, destroyed);
        CascadedIsSmaller(t, View(), log, destroyed);
        i := i + 1;
      }
    }

    // ----- external references -----

    /** Walks the ring of object p for the record of session q. */
    method FindRecord(p: Pointer, q: Pointer) returns (found: bool, r: Pointer)
      requires Valid() && p in objects
      ensures found ==> IsRecord(references, r, p, q) && references[r].count > 0
      ensures !found ==> forall t :: !IsRecord(references, t, p, q)
    {
      hide Counted, RingsCounted, Acyclic, IdsOk;
      found, r := false, 0;
      var ring := objects[p].ring;
      assert ObjectRing(p, ring, references);
      for i := 0 to |ring|
        invariant forall k | 0 <= k < i :: !IsRecord(references, ring[k], p, q)
      {
        if references[ring[i]].session == q {
          assert RecordOk(View(), ring[i]);
          return true, ring[i];
        }
      }
      forall t
        ensures !IsRecord(references, t, p, q)
      {
        if t in references {
          assert RecordOk(View(), t);
        }
      }
    }

    /** object_add_external_reference; address is what calloc returns, memory whether it
        succeeds. It fails exactly when a new record is needed and there is no memory. */
    method AddExternalReference(p: Pointer, q: Pointer, address: Pointer, memory: bool) returns (e: ErrorCode)
      requires Valid() && p in objects && q in sessions && address !in references
      modifies this
      ensures Valid() && destroyed == old(destroyed)
      ensures CountersKept()
      ensures e == if memory || old(exists t :: IsRecord(references, t, p, q)) then Success else NoFreeMemory
      ensures e.Success? ==> HeldChanged(old(references), references, p, q, 1) && SameButRings(old(View()), View(), p)
      ensures !e.Success? ==> View() == old(View())
      ensures forall x | x in sessions && x != q :: x in old(sessions) && sessions[x] == old(sessions[x])
      ensures references.Keys <= old(references.Keys) + {address}
    {
      hide InvBut, RecordOk, HeldChanged;
      ghost var s := View();
      var found, r := FindRecord(p, q);
      if found {
        AdjustEffect(s, r, 1);
        references := references[r := references[r].(count := references[r].count + 1)];
        objects := objects[p := objects[p].(external := objects[p].external + 1)];
        sessions := sessions[q := sessions[q].(external := sessions[q].external + 1)];
        assert View() == Adjust(s, r, 1);
        return Success;
      }
      if !memory {
        return NoFreeMemory;
      }
      LinkEffect(s, p, q, address);
      objects := objects[p := objects[p].(external := objects[p].external + 1, ring := objects[p].ring + [address])];
      sessions := sessions[q := sessions[q].(external := sessions[q].external + 1,
                                             ring := sessions[q].ring + [address])];
      references := references[address := Reference(p, q, 1)];
      assert View() == Link(s, p, q, address);
      e := Success;
    }

    /** object_remove_external_reference: gives up one reference of session q to object p, if
        it has one, and destroys the object with its last reference. */
    method RemoveExternalReference(p: Pointer, q: Pointer)
      requires Valid() && p in objects && q in sessions
      modifies this
      ensures Valid() && pins == old(pins)
      ensures CountersKept()
      ensures if old(exists t :: IsRecord(references, t, p, q))
              then HeldChanged(old(references), references, p, q, -1)
              else View() == old(View())
      ensures Retained(old(View()), View()) && Logged(old(View()), View(), old(destroyed), destroyed)
      ensures sessions.Keys == old(sessions.Keys)
      ensures forall x | x in sessions && x != q :: sessions[x] == old(sessions[x])
      ensures references.Keys <= old(references.Keys)
    {
      hide InvBut, HeldChanged, Retained, Logged, Cascaded;
      ghost var s := View();
      Unchanged(s, destroyed);
      var found, r := FindRecord(p, q);
      if found {
        CountDown(p, q, r);
        ghost var t := View();
        RingsOnly(s, t, p, destroyed);
        DestroyIfUnused(p);
        CascadedIsRetained(s, t, View(), old(destroyed), destroyed);
      }   // otherwise the source only logs an error
    }

    /** One reference less in record r; the record goes away with its last reference. */
    method CountDown(p: Pointer, q: Pointer, r: Pointer)
      requires Valid() && p in objects && q in sessions && IsRecord(references, r, p, q) && references[r].count > 0
      modifies this`references, this`objects, this`sessions
      ensures InvBut(View(), {p})
      ensures SameButRings(old(View()), View(), p)
      ensures HeldChanged(old(references), references, p, q, -1)
      ensures forall x | x in sessions && x != q :: sessions[x] == old(sessions[x])
      ensures references.Keys <= old(references.Keys)
    {
      hide InvBut, RecordOk, HeldChanged, SameButRings, Without;
      ghost var s := View();
      references := references[r := references[r].(count := references[r].count - 1)];
      objects := objects[p := objects[p].(external := objects[p].external - 1)];
      sessions := sessions[q := sessions[q].(external := sessions[q].external - 1)];
      if references[r].count == 0 {
        UnlinkEffect(s, r);
        objects := objects[p := objects[p].(ring := Without(objects[p].ring, r))];
        sessions := sessions[q := sessions[q].(ring := Without(sessions[q].ring, r))];
        references := references - {r};
        assert references == s.references - {r};
        assert View() == Unlink(s, r);
      } else {
        AdjustEffect(s, r, -1);
        assert View() == Adjust(s, r, -1);
        StillInv(View(), p);
      }
    }

    /** Destroys an object whose last reference was removed. */
    method DestroyIfUnused(p: Pointer)
      requires p in objects && InvBut(View(), {p})
      modifies this
      ensures Valid() && pins == old(pins)
      ensures Cascaded(old(View()), View(), old(destroyed), destroyed)
      ensures CountersKept()
      decreases |objects|, 3
    {
      hide InvBut, Cascaded, InUse;
      StillCascaded(View(), destroyed);
      if objects[p].internal == 0 && objects[p].external == 0 {
        RemoveObject(p);
      } else {
        UsedIsInv(View(), p);
      }
    }

    /** object_release: the API call. Only the total of all sessions is checked, so a session
        without a reference of its own gets a success that changes nothing. */
    method Release(p: Pointer, q: Pointer) returns (e: ErrorCode)
      requires Valid() && p in objects && q in sessions
      modifies this
      ensures Valid() && pins == old(pins)
      ensures e == if old(objects[p].external) == 0 then InvalidOperation else Success
      ensures if old(exists t :: IsRecord(references, t, p, q))
              then e.Success? && HeldChanged(old(references), references, p, q, -1)
              else View() == old(View())
      ensures Retained(old(View()), View()) && Logged(old(View()), View(), old(destroyed), destroyed)
      ensures CountersKept()
    {
      hide InvBut, HeldChanged, Retained, Logged;
      Unchanged(View(), destroyed);
      if objects[p].external == 0 {
        NoRecords(View(), p, q);
        return InvalidOperation;
      }
      RemoveExternalReference(p, q);
      e := Success;
    }

    /** session_expire: removes every external reference of session q, in ring order, then
        the session itself. Exactly the objects that neither another session nor a pin still
        reaches are destroyed, each once. */
    method ExpireSession(q: Pointer)
      requires Valid() && q in sessions
      modifies this
      ensures Valid() && pins == old(pins)
      ensures sessions == old(sessions) - {q}
      ensures references == old(OthersOf(references, q))
      ensures Retained(old(View()), View()) && Logged(old(View()), View(), old(destroyed), destroyed)
      ensures forall p :: p in objects <==> Reachable(old(View()), {q}, p)
      ensures |old(destroyed)| <= |destroyed| && destroyed[..|old(destroyed)|] == old(destroyed)
      ensures forall p :: multiset(destroyed[|old(destroyed)|..])[p] == if p in old(objects) && p !in objects then 1
                                                                        else 0
      ensures CountersKept()
    {
      hide InvBut, RecordOk, Expiring, Cascaded, Retained, Logged, HeldChanged, Reachable;
      ghost var s := View();
      ExpiringStarts(s, q, destroyed);
      while sessions[q].ring != []
        invariant q in sessions && Valid() && CountersKept()
        invariant Expiring(s, View(), q, old(destroyed), destroyed)
        decreases |sessions[q].ring|
      {
        ghost var t, log := View(), destroyed;
        var r := sessions[q].ring[0];
        RingHead(t, q);
        UnlinkEffect(t, r);
        var p := references[r].obj;
        objects := objects[p := objects[p].(external := objects[p].external - references[r].count,
                                            ring := Without(objects[p].ring, r))];
        sessions := sessions[q := sessions[q].(external := sessions[q].external - references[r].count,
                                               ring := Without(sessions[q].ring, r))];
        references := references - {r};
        assert View() == Unlink(t, r);
        assert |sessions[q].ring| < |t.sessions[q].ring|;
        ghost var u := View();
        DestroyIfUnused(p);
        ExpiringStep(s, t, q, r, View(), old(destroyed), log, destroyed);
        SessionsKept(u, View(), log, destroyed);
      }
      ExpiringEnds(s, View(), q, old(destroyed), destroyed);
      DropSessionKeeps(View(), q);
      sessions := sessions - {q};
      OthersAreRoots(s, View(), q);
      SurvivorsAreReachable(s, View(), {q});
      LoggedOnce(s, View(), old(destroyed), destroyed);
    }

    // ----- identifiers -----

    /** inventory_get_object for any type: at most one live object has the identifier. */
    method GetObject(id: nat) returns (found: bool, p: Pointer)
      requires Valid()
      ensures found <==> IdUsed(objects, id)
      ensures found ==> p in objects && objects[p].id == id && forall x | x in objects && objects[x].id == id :: x == p
    {
      hide Counted, RingsOk, Acyclic, InUse;
      found, p := false, 0;
      if x :| x in objects && objects[x].id == id {
        found, p := true, x;
      }
    }

    // ----- creation -----

    /** inventory_get_next_object_id. */
    method NewObjectId() returns (allocation: Allocation)
      requires IdsOk(View())
      modifies this`nextObjectId
      ensures allocation.Allocated? ==> FreshId(View(), allocation.id)
      ensures if allocation.Allocated?
              then GivesOut(ObjectIds(objects), old(nextObjectId), allocation.id, nextObjectId)
              else SameTurn(old(nextObjectId), nextObjectId)
      ensures allocation.Exhausted? <==> forall id | 1 <= id <= OBJECT_ID_MAX :: IdUsed(objects, id)
    {
      hide GivesOut, SameTurn;
      var ids := CollectIds(IdsOfObjects(objects));
      UsedIds(objects, ids);
      ghost var before := nextObjectId;
      allocation, nextObjectId := NextId([ids], nextObjectId);
      if allocation.Allocated? {
        SameUse(Used([ids]), ObjectIds(objects), before, allocation.id, nextObjectId);
        Free(objects, before, allocation.id, nextObjectId);
      }
      if allocation.Exhausted? {
        forall id: Id | id != 0
          ensures IdUsed(objects, id)
        {
          assert id in Used([ids]);
        }
      }
    }

    /** inventory_get_next_session_id. */
    method NewSessionId() returns (allocation: Allocation)
      requires IdsOk(View())
      modifies this`nextSessionId
      ensures allocation.Allocated? ==>
                1 <= allocation.id && forall q | q in sessions :: sessions[q].id != allocation.id
      ensures if allocation.Allocated?
              then GivesOut(SessionIds(sessions), old(nextSessionId), allocation.id, nextSessionId)
              else SameTurn(old(nextSessionId), nextSessionId)
      ensures allocation.Exhausted? <==> forall id | 1 <= id <= ID_MAX :: SessionIdUsed(sessions, id)
    {
      hide GivesOut, SameTurn;
      var ids := CollectIds(IdsOfSessions(sessions));
      UsedSessionIds(sessions, ids);
      ghost var before := nextSessionId;
      allocation, nextSessionId := NextId([ids], nextSessionId);
      if allocation.Allocated? {
        SameUse(Used([ids]), SessionIds(sessions), before, allocation.id, nextSessionId);
        FreeSession(sessions, before, allocation.id, nextSessionId);
      }
      if allocation.Exhausted? {
        forall id: Id | id != 0
          ensures SessionIdUsed(sessions, id)
        {
          assert id in Used([ids]);
        }
      }
    }

    lemma Free(objects: Objects, counter: Id, id: nat, counter': Id)
      requires GivesOut(ObjectIds(objects), counter, id, counter')
      ensures 1 <= id <= OBJECT_ID_MAX && forall p | p in objects :: objects[p].id != id
    {
      assert !IdUsed(objects, id);
    }

    lemma FreeSession(sessions: map<Pointer, Session>, counter: Id, id: nat, counter': Id)
      requires GivesOut(SessionIds(sessions), counter, id, counter')
      ensures 1 <= id && forall q | q in sessions :: sessions[q].id != id
    {
      assert !SessionIdUsed(sessions, id);
    }

    /** object_create followed by inventory_add_object. address and recordAddress are what
        calloc returns, recordMemory and tableMemory whether the external reference record and
        the slot in the object table can be allocated. The external reference is taken before
        the object enters the inventory and is not given back when that fails: then, and only
        then, a record is left that points to an object that never existed. Each error comes in
        its order. */
    method CreateObject(kind: Kind, text: string, flags: CreateFlags, session: Option<Pointer>,
                        address: Pointer, recordAddress: Pointer, recordMemory: bool, tableMemory: bool)
      returns (e: ErrorCode)
      requires Valid() && address !in objects && (flags.external ==> recordAddress !in references)
      requires session.Some? ==> session.value in sessions
      requires kind.ListKind? && flags.internal ==> flags.locked
      modifies this
      ensures e.Success? ==> Created(old(View()), View(), kind, text, flags, session, address)
      ensures Valid() <==> !old(LeavesDangling(objects, flags, session, recordMemory, tableMemory))
      ensures !Valid() ==> objects == old(objects) && pins == old(pins)
                           && references == old(references)[recordAddress := Reference(address, session.value, 1)]
      ensures !e.Success? && Valid() ==> View() == old(View())
      ensures e == if (!flags.internal && !flags.external) || (flags.external && session.None?)
                      || (flags.locked && !flags.internal)
                   then InternalError
                   else if flags.external && !recordMemory then NoFreeMemory
                   else if old(AllIdsUsed(objects)) then NoFreeObjectId
                   else if !tableMemory then NoFreeMemory
                   else Success
      ensures destroyed == old(destroyed) && nextSessionId == old(nextSessionId)
      ensures e.Success? ==>
                address in objects
                && GivesOut(ObjectIds(old(objects)), old(nextObjectId), objects[address].id, nextObjectId)
      ensures e.InternalError? || (e.NoFreeMemory? && flags.external && !recordMemory) ==>
                nextObjectId == old(nextObjectId)
      ensures e.NoFreeMemory? && (flags.external ==> recordMemory) ==>
                exists id :: GivesOut(ObjectIds(old(objects)), old(nextObjectId), id, nextObjectId)
      ensures e.NoFreeObjectId? ==> SameTurn(old(nextObjectId), nextObjectId)
    {
      hide InvBut, IdsOk, FreshId, HeldChanged, Created, CreatedState, GivesOut, SameTurn;
      ghost var s := View();
      if !flags.Ok(session) {
        return InternalError;
      }
      var o := Object(kind, 0, 0, 0, 0, [], [], text);
      if flags.internal {
        o := o.(internal := 1);
      }
      if flags.external {
        var q := session.value;
        if !recordMemory {
          return NoFreeMemory;
        }
        o := o.(external := 1, ring := [recordAddress]);
        sessions := sessions[q := sessions[q].(external := sessions[q].external + 1,
                                               ring := sessions[q].ring + [recordAddress])];
        references := references[recordAddress := Reference(address, q, 1)];
      }
      if flags.locked {
        o := o.(lock := 1);
      }
      IdsOfInv(s, View());
      var allocation := NewObjectId();
      IdsOfInv(s, View());
      if allocation.Exhausted? || !tableMemory {
        if flags.external {
          RecordedIsLive(View(), recordAddress);
        }
        return if allocation.Exhausted? then NoFreeObjectId else NoFreeMemory;
      }
      objects := objects[address := o.(id := allocation.id)];
      if flags.internal {
        pins := pins + multiset{Hold(address, flags.locked)};
      }
      CreatedKeeps(s, kind, text, flags, session, address, recordAddress, allocation.id);
      CreatedShape(s, kind, text, flags, session, address, recordAddress, allocation.id);
      e := Success;
    }

    /** session_create: a session without references, unless the lifetime is too long, the
        session cannot be had (memory), its timer cannot be created or started (the error), all
        session identifiers are taken, or there is no slot in the session table (tableMemory). */
    method CreateSession(lifetime: nat, address: Pointer, memory: bool, timer: Option<ErrorCode>, tableMemory: bool)
      returns (e: ErrorCode)
      requires Valid() && address !in sessions && timer != Some(Success)
      modifies this
      ensures Valid() && destroyed == old(destroyed)
      ensures e == if lifetime > SESSION_MAX_LIFETIME then OutOfRange
                   else if !memory then NoFreeMemory
                   else if timer.Some? then timer.value
                   else if forall id | 1 <= id <= ID_MAX :: SessionIdUsed(old(sessions), id) then NoFreeSessionId
                   else if !tableMemory then NoFreeMemory
                   else Success
      ensures if e.Success? then
                address in sessions && sessions[address].ring == []
                && GivesOut(SessionIds(old(sessions)), old(nextSessionId), sessions[address].id, nextSessionId)
                && View() == old(View()).(sessions := old(sessions)[address := sessions[address]])
              else View() == old(View())
      ensures nextObjectId == old(nextObjectId)
      ensures e.NoFreeMemory? && lifetime <= SESSION_MAX_LIFETIME && memory && timer.None? ==>
                exists id :: GivesOut(SessionIds(old(sessions)), old(nextSessionId), id, nextSessionId)
      ensures e.NoFreeSessionId? && timer.None? ==> SameTurn(old(nextSessionId), nextSessionId)
      ensures lifetime > SESSION_MAX_LIFETIME || !memory || timer.Some? ==> nextSessionId == old(nextSessionId)
    {
      hide InvBut, IdsOk, GivesOut, SameTurn;
      if lifetime > SESSION_MAX_LIFETIME {
        return OutOfRange;
      }
      if !memory {
        return NoFreeMemory;
      }
      if timer.Some? {
        return timer.value;
      }
      IdsOfInv(View(), View());
      var allocation := NewSessionId();
      if allocation.Exhausted? {
        return NoFreeSessionId;
      }
      if !tableMemory {
        return NoFreeMemory;
      }
      AddSessionKeeps(View(), address, allocation.id);
      sessions := sessions[address := Session(allocation.id, 0, [])];
      e := Success;
    }

    // ----- pins -----

    /** string_acquire_and_lock, list_acquire_and_lock (locked), file_get_acquired (not). */
    method Acquire(h: Hold)
      requires Valid() && h.target in objects && (objects[h.target].kind.ListKind? ==> h.locked)
      modifies this
      ensures Valid() && pins == old(pins) + multiset{h}
      ensures objects == Bump(old(objects), h, 1)
      ensures sessions == old(sessions) && references == old(references) && destroyed == old(destroyed)
      ensures CountersKept()
    {
      hide InvBut;
      AcquireKeeps(View(), h, {});
      objects := Bump(objects, h, 1);
      pins := pins + multiset{h};
      assert {} - {h.target} == {};
    }

    /** An object that is not a list takes over a pinned reference. */
    method Adopt(x: Pointer, h: Hold)
      requires Valid() && h in pins && x in objects && !objects[x].kind.ListKind?
      requires MayHold(objects, objects[x].kind, h)
      modifies this
      ensures Valid()
      ensures View() == WithHolds(old(View()), x, old(objects[x].holds) + [h], old(pins) - multiset{h})
      ensures destroyed == old(destroyed)
      ensures CountersKept()
    {
      hide InvBut, MayHold;
      AdoptKeeps(View(), x, h);
      objects := objects[x := objects[x].(holds := objects[x].holds + [h])];
      pins := pins - multiset{h};
    }

    /** An object that is not a list gives up its i-th reference. */
    method GiveUp(x: Pointer, i: nat)
      requires Valid() && x in objects && !objects[x].kind.ListKind? && i < |objects[x].holds|
      modifies this
      ensures Valid() && pins == old(pins) && sessions == old(sessions) && references == old(references)
      ensures RetainedBut(old(View()), View(), x, WithoutSlot(old(objects[x].holds), i))
      ensures Logged(old(View()), View(), old(destroyed), destroyed)
      ensures CountersKept()
    {
      RemoveSlot(x, i);
    }

    /** One slot of x is removed and what it held is released. */
    method RemoveSlot(x: Pointer, i: nat)
      requires Valid() && x in objects && i < |objects[x].holds|
      requires objects[x].kind.ListKind? ==> objects[x].lock == 0
      modifies this
      ensures Valid() && pins == old(pins) && sessions == old(sessions) && references == old(references)
      ensures RetainedBut(old(View()), View(), x, WithoutSlot(old(objects[x].holds), i))
      ensures Logged(old(View()), View(), old(destroyed), destroyed)
      ensures CountersKept()
    {
      hide InvBut, Cascaded, RetainedBut, Logged, WithoutSlot;
      ghost var s := View();
      DisownKeeps(s, x, i);
      var h := objects[x].holds[i];
      objects := objects[x := objects[x].(holds := WithoutSlot(objects[x].holds, i))];
      pins := pins + multiset{h};
      ghost var t := View();
      ReleaseHold(h);
      SlotRemoved(s, t, View(), x, i, old(destroyed), destroyed);
    }

    // ----- lists and strings -----

    /** list_append_to. */
    method ListAppend(x: Pointer, itemId: nat, memory: bool) returns (e: ErrorCode)
      requires Valid() && x in objects && objects[x].kind.ListKind?
      modifies this
      ensures Valid() && destroyed == old(destroyed)
      ensures e == if itemId == old(objects[x].id) then NotSupported
                   else if old(objects[x].lock) > 0 then ObjectIsLocked
                   else if |old(objects[x].holds)| == LIST_MAX_LENGTH then InvalidOperation
                   else if !old(IdUsed(objects, itemId)) then UnknownObjectId
                   else if !memory then NoFreeMemory
                   else Success
      ensures pins == old(pins) && sessions == old(sessions) && references == old(references)
      ensures if e.Success?
              then exists item :: item in old(objects) && old(objects)[item].id == itemId
                     && Appended(old(View()), View(), x, Hold(item, true))
              else View() == old(View())
      ensures e.Success? ==>
                && x in objects && objects[x].lock == old(objects[x].lock)
                && objects[x].kind == old(objects[x].kind) && |objects[x].holds| == |old(objects[x].holds)| + 1
                && (forall k | 0 <= k < |old(objects[x].holds)| :: objects[x].holds[k] == old(objects[x].holds)[k])
                && var last := objects[x].holds[|objects[x].holds| - 1];
                   last.locked && last.target in old(objects) && old(objects)[last.target].id == itemId
      ensures CountersKept()
    {
      hide Inv, InvBut, MayHold, Appended, SameButCounts, IdUsed;
      if itemId == objects[x].id {
        return NotSupported;
      }
      if objects[x].lock > 0 {
        return ObjectIsLocked;
      }
      if |objects[x].holds| == LIST_MAX_LENGTH {
        return InvalidOperation;
      }
      var found, item := GetObject(itemId);
      if !found {
        return UnknownObjectId;
      }
      if !memory {
        return NoFreeMemory;
      }
      var h := Hold(item, true);
      ghost var s := View();
      LockNotNegative(s, x);
      Acquire(h);
      AdoptKeeps(View(), x, h);
      objects := objects[x := objects[x].(holds := objects[x].holds + [h])];
      pins := pins - multiset{h};
      IsAppended(s, View(), x, h);
      e := Success;
    }

    /** list_remove_from: the item may be destroyed with its last reference, the list stays. */
    method ListRemove(x: Pointer, index: nat) returns (e: ErrorCode)
      requires Valid() && x in objects && objects[x].kind.ListKind?
      modifies this
      ensures Valid()
      ensures e == if old(objects[x].lock) > 0 then ObjectIsLocked
                   else if index >= |old(objects[x].holds)| then OutOfRange
                   else Success
      ensures pins == old(pins) && sessions == old(sessions) && references == old(references)
      ensures if e.Success?
              then x in objects && RetainedBut(old(View()), View(), x, WithoutSlot(old(objects[x].holds), index))
                   && Logged(old(View()), View(), old(destroyed), destroyed)
              else View() == old(View()) && destroyed == old(destroyed)
      ensures e.Success? ==>
                && |objects[x].holds| == |old(objects[x].holds)| - 1
                && (forall k | 0 <= k < index :: objects[x].holds[k] == old(objects[x].holds)[k])
                && (forall k | index <= k < |objects[x].holds| :: objects[x].holds[k] == old(objects[x].holds)[k + 1])
      ensures CountersKept()
    {
      hide InvBut, RetainedBut, Logged, WithoutSlot;
      if objects[x].lock > 0 {
        return ObjectIsLocked;
      }
      if index >= |objects[x].holds| {
        return OutOfRange;
      }
      ghost var s := View();
      LockNotNegative(s, x);
      RemoveSlot(x, index);
      UnlockedStays(s, View(), x);
      ItemsMoveUp(s, View(), x, index);
      e := Success;
    }

    /** list_get_item: the caller's session gets an external reference to the item. */
    method ListGetItem(x: Pointer, index: nat, q: Pointer, address: Pointer, memory: bool)
      returns (e: ErrorCode, id: nat, kind: Kind)
      requires Valid() && x in objects && objects[x].kind.ListKind? && q in sessions && address !in references
      modifies this
      ensures Valid() && destroyed == old(destroyed)
      ensures e == if index >= |old(objects[x].holds)| then OutOfRange
                   else if memory || old(exists t :: IsRecord(references, t, objects[x].holds[index].target, q)) then
                     Success
                   else NoFreeMemory
      ensures if e.Success? then
                var item := old(objects[x].holds)[index].target;
                item in old(objects) && old(objects)[item].id == id && old(objects)[item].kind == kind
                && HeldChanged(old(references), references, item, q, 1) && SameButRings(old(View()), View(), item)
              else View() == old(View())
      ensures CountersKept()
    {
      hide InvBut, HeldChanged, SameButRings;
      id, kind := 0, StringKind;
      if index >= |objects[x].holds| {
        return OutOfRange, id, kind;
      }
      var item := objects[x].holds[index].target;
      ItemIsLive(View(), x, index);
      id, kind := objects[item].id, objects[item].kind;
      e := AddExternalReference(item, q, address, memory);
    }

    /** list_ensure_item_type. */
    method ListEnsureItemType(x: Pointer, kind: Kind) returns (e: ErrorCode)
      requires Valid() && x in objects && objects[x].kind.ListKind?
      ensures e == Success || e == WrongListItemType
      ensures e.Success? <==> forall h | h in objects[x].holds :: h.target in objects && objects[h.target].kind == kind
    {
      hide InvBut;
      for i := 0 to |objects[x].holds|
        invariant forall k | 0 <= k < i ::
                    objects[x].holds[k].target in objects && objects[objects[x].holds[k].target].kind == kind
      {
        ItemIsLive(View(), x, i);
        if objects[objects[x].holds[i].target].kind != kind {
          return WrongListItemType;
        }
      }
      e := Success;
    }

    /** string_set_chunk and string_truncate as far as the graph is concerned. */
    method EditString(x: Pointer, text: string) returns (e: ErrorCode)
      requires Valid() && x in objects && objects[x].kind.StringKind?
      modifies this
      ensures Valid() && destroyed == old(destroyed)
      ensures e == if old(objects[x].lock) > 0 then ObjectIsLocked else Success
      ensures View() == if e.Success? then old(View()).(objects := old(objects)[x := old(objects[x]).(text := text)])
              else old(View())
      ensures CountersKept()
    {
      hide InvBut;
      if objects[x].lock > 0 {
        return ObjectIsLocked;
      }
      EditKeeps(View(), x, text);
      objects := objects[x := objects[x].(text := text)];
      e := Success;
    }

    // ----- acquiring by identifier -----

    /** inventory_get_object for one type. */
    method GetTyped(kind: Kind, id: nat) returns (found: bool, p: Pointer)
      requires Valid()
      ensures found <==> exists x :: IsTyped(objects, kind, id, x)
      ensures found ==> IsTyped(objects, kind, id, p) && forall x | IsTyped(objects, kind, id, x) :: x == p
    {
      hide InvBut;
      found, p := GetObject(id);
      assert forall x | IsTyped(objects, kind, id, x) :: found && x == p;
      found := found && objects[p].kind == kind;
      assert found ==> IsTyped(objects, kind, id, p);
    }

    /** string_get_acquired_and_locked. */
    method GetStringLocked(id: nat) returns (e: ErrorCode, p: Pointer)
      requires Valid()
      modifies this
      ensures Valid() && destroyed == old(destroyed) && Touched(old(View()), View())
      ensures e == if old(exists x :: IsTyped(objects, StringKind, id, x)) then Success else UnknownObjectId
      ensures if e.Success? then
                && old(IsTyped(objects, StringKind, id, p))
                && (forall x | old(IsTyped(objects, StringKind, id, x)) :: x == p)
                && p in objects && Alike(old(objects), objects)
                && pins == old(pins) + multiset{Hold(p, true)}
              else View() == old(View())
      ensures CountersKept()
    {
      hide InvBut, Touched;
      TouchedNothing(View());
      var found;
      found, p := GetTyped(StringKind, id);
      if !found {
        return UnknownObjectId, p;
      }
      ghost var s := View();
      Acquire(Hold(p, true));
      BumpTouches(s, View(), Hold(p, true));
      e := Success;
    }

    /** list_get_acquired_and_locked. */
    method GetListLocked(id: nat, itemKind: Kind) returns (e: ErrorCode, p: Pointer)
      requires Valid()
      modifies this
      ensures Valid() && destroyed == old(destroyed) && Touched(old(View()), View())
      ensures e.UnknownObjectId? <==> !old(exists x :: IsTyped(objects, ListKind, id, x))
      ensures !e.UnknownObjectId? ==> p in old(objects)
      ensures if e.Success? then
                && old(IsTyped(objects, ListKind, id, p)) && p in objects && Alike(old(objects), objects)
                && pins == old(pins) + multiset{Hold(p, true)}
                && old(forall h | h in objects[p].holds :: h.target in objects && objects[h.target].kind == itemKind)
              else View() == old(View())
      ensures e.WrongListItemType? ==>
                old(exists h :: h in objects[p].holds && !(h.target in objects && objects[h.target].kind == itemKind))
      ensures !e.UnknownObjectId? ==> forall x | old(IsTyped(objects, ListKind, id, x)) :: x == p
      ensures e == Success || e == UnknownObjectId || e == WrongListItemType
      ensures CountersKept()
    {
      hide InvBut, Touched;
      TouchedNothing(View());
      var found;
      found, p := GetTyped(ListKind, id);
      if !found {
        return UnknownObjectId, p;
      }
      e := ListEnsureItemType(p, itemKind);
      if e.Success? {
        ghost var s := View();
        Acquire(Hold(p, true));
        BumpTouches(s, View(), Hold(p, true));
      }
    }

    /** string_unlock_and_release, list_unlock_and_release. */
    method UnlockAndRelease(p: Pointer)
      requires Valid() && Hold(p, true) in pins
      modifies this
      ensures Valid() && pins == old(pins) - multiset{Hold(p, true)}
      ensures Touched(old(View()), View())
      ensures CountersKept()
    {
      hide InvBut, Cascaded, Touched;
      ReleaseHold(Hold(p, true));
      CascadeTouches(old(View()), View(), old(destroyed), destroyed);
    }

    // ----- runs -----

    /** Any single request, in any valid state. Exactly the creations that take an external
        reference and then fail break the invariant. */
    method Execute(r: Request) returns (dangling: bool)
      requires Valid() && Possible(View(), r)
      modifies this
      ensures dangling <==> old(Dangles(View(), r))
      ensures Valid() <==> !dangling
      ensures !dangling ==> Respects(old(View()), View()) && (old(ShortLists(objects)) ==> ShortLists(objects))
      ensures ObjectCounted(old(View()), old(nextObjectId), r, View(), nextObjectId)
      ensures SessionCounted(old(View()), old(nextSessionId), r, View(), nextSessionId)
    {
      hide Inv, InvBut, AllIdsUsed, Respects, ShortLists, GivesOut, ObjectCounted, SessionCounted;
      ghost var s, c, d := View(), nextObjectId, nextSessionId;
      if r.OpenSession? || r.Create? {
        dangling := ExecuteCreation(r);
      } else {
        ExecuteOther(r);
        dangling := false;
        NothingNew(s, c, d, r, View(), nextObjectId, nextSessionId);
      }
    }

    /** The requests for something new. */
    method ExecuteCreation(r: Request) returns (dangling: bool)
      requires Valid() && Possible(View(), r) && (r.OpenSession? || r.Create?)
      modifies this
      ensures dangling <==> old(Dangles(View(), r))
      ensures Valid() <==> !dangling
      ensures !dangling ==> Respects(old(View()), View()) && (old(ShortLists(objects)) ==> ShortLists(objects))
      ensures ObjectCounted(old(View()), old(nextObjectId), r, View(), nextObjectId)
      ensures SessionCounted(old(View()), old(nextSessionId), r, View(), nextSessionId)
    {
      hide Inv, InvBut, AllIdsUsed, Respects, ShortLists, Created, GivesOut;
      dangling := false;
      var e;
      ghost var s := View();
      match r
      case OpenSession(lifetime, address, memory, timer, tableMemory) =>
        e := CreateSession(lifetime, address, memory, timer, tableMemory);
        SameObjectsRespect(s, View());
      case Create(kind, text, flags, session, address, recordAddress, recordMemory, tableMemory) =>
        e := CreateObject(kind, text, flags, session, address, recordAddress, recordMemory, tableMemory);
        if e.Success? {
          CreatedRespects(s, View(), kind, text, flags, session, address);
        } else {
          dangling := flags.Ok(session) && flags.external && recordMemory;
          assert dangling == LeavesDangling(s.objects, flags, session, recordMemory, tableMemory);
          SameObjectsRespect(s, s);
        }
    }

    /** All others. */
    method ExecuteOther(r: Request)
      requires Valid() && Possible(View(), r) && !r.OpenSession? && !r.Create?
      modifies this
      ensures Valid() && Respects(old(View()), View()) && (old(ShortLists(objects)) ==> ShortLists(objects))
      ensures CountersKept()
    {
      hide InvBut, Respects, ShortLists, Retained, RetainedBut, SameButRings, Logged, HeldChanged, MayHold, Appended;
      var e;
      ghost var s := View();
      match r
      case Expire(q) =>
        ExpireSession(q);
        RetainedRespects(s, View());
      case Share(p, q, address, memory) =>
        e := AddExternalReference(p, q, address, memory);
        if e.Success? { RingsRespect(s, View(), p); } else { SameObjectsRespect(s, View()); }
      case Release(p, q) =>
        e := Release(p, q);
        RetainedRespects(s, View());
      case Append(x, itemId, memory) =>
        e := ListAppend(x, itemId, memory);
        if e.Success? { AppendRespects(s, View(), x, itemId); } else { SameObjectsRespect(s, View()); }
      case Remove(x, index) =>
        e := ListRemove(x, index);
        if e.Success? {
          LockNotNegative(s, x);
          SlotRespects(s, View(), x, WithoutSlot(s.objects[x].holds, index));
        } else {
          SameObjectsRespect(s, View());
        }
      case GetItem(x, index, q, address, memory) =>
        var id, kind;
        e, id, kind := ListGetItem(x, index, q, address, memory);
        if e.Success? { RingsRespect(s, View(), s.objects[x].holds[index].target); }
        else { SameObjectsRespect(s, View()); }
      case Edit(x, text) =>
        LockNotNegative(s, x);
        e := EditString(x, text);
        EditRespects(s, View(), x, text);
      case Pin(h) =>
        Acquire(h);
        BumpRespects(s, View(), h);
      case Unpin(h) =>
        ReleaseHold(h);
        RetainedRespects(s, View()) by { CascadeRetains(s, View(), old(destroyed), destroyed); }
      case Adopt(x, h) =>
        Adopt(x, h);
        AdoptRespects(s, View(), x, h);
      case GiveUp(x, i) =>
        GiveUp(x, i);
        SlotRespects(s, View(), x, WithoutSlot(s.objects[x].holds, i));
    }

    lemma NothingNew(s: State, c: Id, d: Id, r: Request, t: State, c': Id, d': Id)
      requires !r.OpenSession? && !r.Create? && c' == c && d' == d
      ensures ObjectCounted(s, c, r, t, c') && SessionCounted(s, d, r, t, d')
    {
    }

    lemma NotCounted(s: State, c: Id, d: Id, r: Request)
      ensures ObjectCounted(s, c, r, s, c) && SessionCounted(s, d, r, s, d)
    {
    }

    /** The event loop: any sequence of requests, those that make no sense in the state they
        arrive in left out, until one leaves a dangling record. Every state before that is
        valid, and no step touches a locked string or list. */
    method Run(requests: seq<Request>)
      returns (dangling: bool, ghost trace: seq<State>, ghost objectCounters: seq<Id>, ghost sessionCounters: seq<Id>)
      requires Valid()
      modifies this
      ensures FrozenTrace(trace) && trace[0] == old(View())
      ensures if dangling then 1 <= |trace| <= |requests| && Dangles(trace[|trace| - 1], requests[|trace| - 1])
              else |trace| == |requests| + 1 && trace[|requests|] == View()
      ensures forall i | 0 <= i < |trace| - 1 :: !Dangles(trace[i], requests[i])
      ensures old(ShortLists(objects)) ==> forall i | 0 <= i < |trace| :: ShortLists(trace[i].objects)
      ensures Valid() <==> !dangling
      ensures ObjectsCounted(trace, objectCounters, requests) && objectCounters[0] == old(nextObjectId)
      ensures SessionsCounted(trace, sessionCounters, requests) && sessionCounters[0] == old(nextSessionId)
    {
      hide InvBut, Respects, ShortLists, Dangles, Possible, ObjectCounted, SessionCounted;
      trace, objectCounters, sessionCounters := [View()], [nextObjectId], [nextSessionId];
      dangling := false;
      for i := 0 to |requests|
        invariant Valid() && FrozenTrace(trace) && trace[0] == old(View())
        invariant |trace| == i + 1 && trace[i] == View()
        invariant forall k | 0 <= k < i :: !Dangles(trace[k], requests[k])
        invariant old(ShortLists(objects)) ==> forall k | 0 <= k <= i :: ShortLists(trace[k].objects)
        invariant ObjectsCounted(trace, objectCounters, requests) && objectCounters[0] == old(nextObjectId)
        invariant SessionsCounted(trace, sessionCounters, requests) && sessionCounters[0] == old(nextSessionId)
        invariant objectCounters[i] == nextObjectId && sessionCounters[i] == nextSessionId
      {
        if Possible(State(objects, sessions, references, pins), requests[i]) {
          dangling := Execute(requests[i]);
          if dangling {
            return;
          }
        } else {
          ImpossibleDoesNot(View(), requests[i]);
          SameObjectsRespect(View(), View());
          NotCounted(View(), nextObjectId, nextSessionId, requests[i]);
        }
        trace, objectCounters := trace + [View()], objectCounters + [nextObjectId];
        sessionCounters := sessionCounters + [nextSessionId];
      }
    }
  }

  /** An item is appended and the last item removed again: nothing has changed, whichever object it
      was. */
  method AppendAndRemove(inventory: Inventory, x: Pointer, itemId: nat, memory: bool) returns (e: ErrorCode)
    requires inventory.Valid() && x in inventory.objects && inventory.objects[x].kind.ListKind?
    modifies inventory
    ensures inventory.Valid() && inventory.View() == old(inventory.View()) && inventory.CountersKept()
    ensures e.Success? <==>
              && old(IdUsed(inventory.objects, itemId)) && itemId != old(inventory.objects[x].id) && memory
              && old(inventory.objects[x].lock) == 0 && |old(inventory.objects[x].holds)| != LIST_MAX_LENGTH
  {
    hide Inv, InvBut, Appended, RetainedBut;
    ghost var s := inventory.View();
    LockNotNegative(s, x);
    e := inventory.ListAppend(x, itemId, memory);
    if e.Success? {
      ghost var t := inventory.View();
      ghost var item :| item in s.objects && s.objects[item].id == itemId && Appended(s, t, x, Hold(item, true));
      e := inventory.ListRemove(x, |inventory.objects[x].holds| - 1);
      AppendedAndRemoved(s, t, inventory.View(), x, Hold(item, true));
    }
  }
}
