/** The object graph of redapid: reference counted, lockable objects, client sessions,
    and the external reference records threaded through one ring per object and one ring
    per session. Memory is explicit: maps from addresses to records. */
module ObjectGraph {

  type Pointer = nat

  const OBJECT_ID_MAX: nat := 65535

  datatype Kind = StringKind | ListKind | FileKind | DirectoryKind | ProcessKind | ProgramKind

  /** One internal reference: a list item, a reference kept by a file, directory, process
      or program object, or a pin. A locked hold also counts in the target's lock count. */
  datatype Hold = Hold(target: Pointer, locked: bool)

  datatype Object = Object(kind: Kind, id: nat, internal: int, external: int, lock: int,
                           ring: seq<Pointer>, holds: seq<Hold>, text: string)

  datatype Session = Session(id: nat, external: int, ring: seq<Pointer>)

  datatype Reference = Reference(obj: Pointer, session: Pointer, count: int)

  type Objects = map<Pointer, Object>
  type References = map<Pointer, Reference>

  /** pins are the internal references kept outside of the graph: by the stock string
      table, by program configurations and schedulers, and by the call in progress. */
  datatype State = State(objects: Objects, sessions: map<Pointer, Session>,
                         references: References, pins: multiset<Hold>)

  // ----- slots: every internal reference, wherever it is kept -----

  ghost function Total(objects: Objects): multiset<Hold>
    decreases |objects|
  {
    if objects == map[] then multiset{}
    else var p :| p in objects; multiset(objects[p].holds) + Total(objects - {p})
  }

  ghost function Slots(s: State): multiset<Hold> {
    Total(s.objects) + s.pins
  }

  lemma {:induction false} TotalSplit(objects: Objects, p: Pointer)
    requires p in objects
    ensures Total(objects) == multiset(objects[p].holds) + Total(objects - {p})
    decreases |objects|
  {
    var q :| q in objects && Total(objects) == multiset(objects[q].holds) + Total(objects - {q});
    if q != p {
      TotalSplit(objects - {q}, p);
      TotalSplit(objects - {p}, q);
      assert objects - {q} - {p} == objects - {p} - {q};
    }
  }

  lemma TotalUpdate(objects: Objects, p: Pointer, o: Object)
    requires p in objects
    ensures Total(objects[p := o]) == Total(objects) - multiset(objects[p].holds) + multiset(o.holds)
    ensures multiset(objects[p].holds) <= Total(objects)
  {
    TotalSplit(objects, p);
    TotalSplit(objects[p := o], p);
    assert objects[p := o] - {p} == objects - {p};
  }

  lemma TotalInsert(objects: Objects, p: Pointer, o: Object)
    requires p !in objects
    ensures Total(objects[p := o]) == Total(objects) + multiset(o.holds)
  {
    TotalSplit(objects[p := o], p);
    assert objects[p := o] - {p} == objects;
  }

  /** Every slot inside the graph belongs to some owner. */
  lemma {:induction false} SlotOwner(objects: Objects, h: Hold) returns (q: Pointer)
    requires h in Total(objects)
    ensures q in objects && h in objects[q].holds
    decreases |objects|
  {
    q :| q in objects && Total(objects) == multiset(objects[q].holds) + Total(objects - {q});
    if h !in objects[q].holds {
      q := SlotOwner(objects - {q}, h);
    }
  }

  lemma HoldIsSlot(objects: Objects, q: Pointer, h: Hold)
    requires q in objects && h in objects[q].holds
    ensures h in Total(objects)
  {
    TotalSplit(objects, q);
    assert h in multiset(objects[q].holds);
  }

  /** Slots point to live objects, lists are only held locked, and both internal counts
      equal the number of slots. */
  ghost predicate CountedBy(objects: Objects, slots: multiset<Hold>) {
    && (forall h | h in slots :: h.target in objects && (objects[h.target].kind.ListKind? ==> h.locked))
    && (forall p | p in objects ::
          && objects[p].lock == slots[Hold(p, true)]
          && objects[p].internal == slots[Hold(p, true)] + slots[Hold(p, false)])
  }

  ghost predicate Counted(s: State) {
    CountedBy(s.objects, Slots(s))
  }

  // ----- rings of external reference records -----

  ghost predicate Distinct(ring: seq<Pointer>) {
    forall i, j | 0 <= i < j < |ring| :: ring[i] != ring[j]
  }

  ghost function RingSum(ring: seq<Pointer>, references: References): int {
    if ring == [] then 0
    else (if ring[0] in references then references[ring[0]].count else 0) + RingSum(ring[1..], references)
  }

  ghost predicate RingOk(ring: seq<Pointer>, external: int, references: References) {
    && Distinct(ring)
    && (forall r | r in ring :: r in references)
    && RingSum(ring, references) == external
  }

  ghost predicate RecordOk(s: State, r: Pointer)
    requires r in s.references
  {
    var e := s.references[r];
    && e.count > 0
    && e.obj in s.objects && r in s.objects[e.obj].ring
    && e.session in s.sessions && r in s.sessions[e.session].ring
  }

  ghost predicate ObjectRing(p: Pointer, ring: seq<Pointer>, references: References) {
    forall r | r in ring :: r in references && references[r].obj == p
  }

  ghost predicate SessionRing(q: Pointer, ring: seq<Pointer>, references: References) {
    forall r | r in ring :: r in references && references[r].session == q
  }

  ghost predicate OnePerPair(references: References) {
    forall r, t | r in references && t in references && r != t ::
      references[r].obj != references[t].obj || references[r].session != references[t].session
  }

  /** Every record is in the ring of its object and in the ring of its session, every ring
      entry is a record of the ring's owner, and there is at most one record per pair. */
  ghost predicate RecordsLinked(s: State) {
    && (forall r | r in s.references :: RecordOk(s, r))
    && (forall p | p in s.objects :: ObjectRing(p, s.objects[p].ring, s.references))
    && (forall q | q in s.sessions :: SessionRing(q, s.sessions[q].ring, s.references))
    && OnePerPair(s.references)
  }

  /** Rings have no duplicates, and each external count is the sum over its ring. */
  ghost predicate RingsCounted(s: State) {
    && (forall p | p in s.objects :: RingOk(s.objects[p].ring, s.objects[p].external, s.references))
    && (forall q | q in s.sessions :: RingOk(s.sessions[q].ring, s.sessions[q].external, s.references))
  }

  ghost predicate RingsOk(s: State) {
    RecordsLinked(s) && RingsCounted(s)
  }

  lemma {:induction false} RingSumSame(ring: seq<Pointer>, a: References, b: References)
    requires forall r | r in ring :: r in a && r in b && a[r].count == b[r].count
    ensures RingSum(ring, a) == RingSum(ring, b)
  {
    if ring != [] {
      assert forall r | r in ring[1..] :: r in ring;
      RingSumSame(ring[1..], a, b);
    }
  }

  lemma {:induction false} RingSumSplit(ring: seq<Pointer>, i: nat, references: References)
    requires i < |ring| && ring[i] in references
    ensures RingSum(ring, references) == RingSum(ring[..i] + ring[i+1..], references) + references[ring[i]].count
  {
    if i == 0 {
      assert ring[..0] + ring[1..] == ring[1..];
    } else {
      RingSumSplit(ring[1..], i - 1, references);
      var rest := ring[..i] + ring[i+1..];
      assert rest[1..] == ring[1..][..i-1] + ring[1..][i..];
      assert ring[1..][i-1+1..] == ring[1..][i..];
    }
  }

  lemma {:induction false} RingSumAppend(ring: seq<Pointer>, r: Pointer, references: References)
    requires r in references
    ensures RingSum(ring + [r], references) == RingSum(ring, references) + references[r].count
  {
    if ring == [] {
      assert ([] + [r])[1..] == [];
    } else {
      RingSumAppend(ring[1..], r, references);
      assert (ring + [r])[1..] == ring[1..] + [r];
    }
  }

  lemma {:induction false} RingSumPositive(ring: seq<Pointer>, references: References)
    requires forall r | r in ring :: r in references && references[r].count > 0
    ensures RingSum(ring, references) >= |ring|
  {
    if ring != [] {
      assert forall r | r in ring[1..] :: r in ring;
      RingSumPositive(ring[1..], references);
    }
  }

  // ----- acyclicity -----

  /** Documented order of use (inventory.c): programs use processes, lists and strings,
      processes use files, lists and strings, files and directories use strings. */
  function KindRank(kind: Kind): nat {
    match kind
    case StringKind => 0
    case ListKind => 1
    case FileKind => 2
    case DirectoryKind => 2
    case ProcessKind => 3
    case ProgramKind => 4
  }

  predicate OnlyStrings(objects: Objects, holds: seq<Hold>) {
    forall h | h in holds :: h.target in objects && objects[h.target].kind.StringKind?
  }

  /** rank numbers the objects so that every hold goes strictly downwards. Lists hold their
      items locked. */
  ghost predicate Ranked(objects: Objects, rank: map<Pointer, nat>) {
    && objects.Keys <= rank.Keys
    && (forall p | p in objects && !objects[p].kind.ListKind? :: rank[p] == KindRank(objects[p].kind))
    && (forall p | p in objects && objects[p].kind.ListKind? ::
          rank[p] >= 1 && (OnlyStrings(objects, objects[p].holds) ==> rank[p] == 1))
    && (forall p, h | p in objects && h in objects[p].holds ::
          h.target in objects && rank[h.target] < rank[p] && (objects[p].kind.ListKind? ==> h.locked))
  }

  ghost predicate Acyclic(objects: Objects) {
    exists rank :: Ranked(objects, rank)
  }

  // ----- identifiers -----

  ghost predicate IdsOk(s: State) {
    && (forall p | p in s.objects :: 1 <= s.objects[p].id <= OBJECT_ID_MAX)
    && (forall p, q | p in s.objects && q in s.objects && s.objects[p].id == s.objects[q].id :: p == q)
    && (forall p | p in s.sessions :: 1 <= s.sessions[p].id <= OBJECT_ID_MAX)
    && (forall p, q | p in s.sessions && q in s.sessions && s.sessions[p].id == s.sessions[q].id :: p == q)
  }

  // ----- the invariant -----

  ghost predicate InUse(o: Object) { o.internal + o.external > 0 }

  /** What holds between any two requests, except that the objects in dying may have lost
      their last reference already. */
  ghost predicate InvBut(s: State, dying: set<Pointer>) {
    && Counted(s)
    && RingsOk(s)
    && Acyclic(s.objects)
    && IdsOk(s)
    && (forall p | p in s.objects && p !in dying :: InUse(s.objects[p]))
  }

  ghost predicate Inv(s: State) {
    InvBut(s, {})
  }

  // ----- steps on the object table -----

  function Bump(objects: Objects, h: Hold, d: int): (r: Objects)
    requires h.target in objects
  {
    var o := objects[h.target];
    objects[h.target := o.(internal := o.internal + d, lock := if h.locked then o.lock + d else o.lock)]
  }

  /** Two object tables agree on everything but internal and lock counts. */
  ghost predicate SameButCounts(a: Object, b: Object) {
    && a.kind == b.kind && a.id == b.id && a.text == b.text && a.holds == b.holds
    && a.external == b.external && a.ring == b.ring
  }

  lemma RingsAgree(s: State, t: State)
    requires RingsOk(s)
    requires s.references == t.references && s.sessions == t.sessions
    requires t.objects.Keys <= s.objects.Keys
    requires forall p | p in t.objects ::
               s.objects[p].ring == t.objects[p].ring && s.objects[p].external == t.objects[p].external
    requires forall p | p in s.objects && p !in t.objects :: s.objects[p].ring == []
    ensures RingsOk(t)
  {
  }

  lemma IdsAgree(s: State, t: State)
    requires IdsOk(s) && t.sessions == s.sessions && t.objects.Keys <= s.objects.Keys
    requires forall p | p in t.objects :: s.objects[p].id == t.objects[p].id
    ensures IdsOk(t)
  {
  }

  lemma RanksAgree(objects: Objects, objects': Objects)
    requires Acyclic(objects)
    requires objects'.Keys <= objects.Keys
    requires forall p | p in objects' :: objects'[p].kind == objects[p].kind && objects'[p].holds == objects[p].holds
    requires HoldsLive(objects')
    ensures Acyclic(objects')
  {
    var rank :| Ranked(objects, rank);
    forall p | p in objects' && objects'[p].kind.ListKind? && OnlyStrings(objects', objects'[p].holds)
      ensures OnlyStrings(objects, objects[p].holds)
    {
    }
    assert Ranked(objects', rank);
  }

  ghost predicate HoldsLive(objects: Objects) {
    forall p, h | p in objects && h in objects[p].holds :: h.target in objects
  }

  lemma HoldsAreLive(s: State)
    requires Counted(s)
    ensures HoldsLive(s.objects)
  {
    forall p, h | p in s.objects && h in s.objects[p].holds
      ensures h.target in s.objects
    {
      HoldIsSlot(s.objects, p, h);
      assert h in Slots(s);
    }
  }

  lemma BumpUpCounted(objects: Objects, slots: multiset<Hold>, h: Hold)
    requires CountedBy(objects, slots)
    requires h.target in objects && (objects[h.target].kind.ListKind? ==> h.locked)
    ensures CountedBy(Bump(objects, h, 1), slots + multiset{h})
  {
    var more, objects' := slots + multiset{h}, Bump(objects, h, 1);
    forall k | k in more
      ensures k.target in objects' && (objects'[k.target].kind.ListKind? ==> k.locked)
    {
      assert k == h || k in slots;
    }
    forall p | p in objects'
      ensures objects'[p].lock == more[Hold(p, true)]
      ensures objects'[p].internal == more[Hold(p, true)] + more[Hold(p, false)]
    {
      assert more[Hold(p, true)] == slots[Hold(p, true)] + multiset{h}[Hold(p, true)];
      assert more[Hold(p, false)] == slots[Hold(p, false)] + multiset{h}[Hold(p, false)];
    }
  }

  lemma BumpDownCounted(objects: Objects, slots: multiset<Hold>, h: Hold)
    requires CountedBy(objects, slots) && h in slots
    ensures CountedBy(Bump(objects, h, -1), slots - multiset{h})
  {
    var less, objects' := slots - multiset{h}, Bump(objects, h, -1);
    forall k | k in less
      ensures k.target in objects' && (objects'[k.target].kind.ListKind? ==> k.locked)
    {
      assert k in slots;
    }
    forall p | p in objects'
      ensures objects'[p].lock == less[Hold(p, true)]
      ensures objects'[p].internal == less[Hold(p, true)] + less[Hold(p, false)]
    {
      assert less[Hold(p, true)] == slots[Hold(p, true)] - multiset{h}[Hold(p, true)];
      assert less[Hold(p, false)] == slots[Hold(p, false)] - multiset{h}[Hold(p, false)];
    }
  }

  lemma BumpKeepsRings(s: State, t: State, h: Hold, d: int)
    requires RingsOk(s)
    requires h.target in s.objects && t.objects == Bump(s.objects, h, d)
    requires t.sessions == s.sessions && t.references == s.references
    ensures RingsOk(t)
  {
    RingsAgree(s, t);
  }

  lemma BumpKeepsRanks(s: State, h: Hold, d: int)
    requires Counted(s) && Acyclic(s.objects)
    requires h.target in s.objects
    ensures Acyclic(Bump(s.objects, h, d))
  {
    HoldsAreLive(s);
    RanksAgree(s.objects, Bump(s.objects, h, d));
  }

  lemma BumpKeepsRest(s: State, t: State, h: Hold, d: int)
    requires Counted(s) && RingsOk(s) && Acyclic(s.objects) && IdsOk(s)
    requires h.target in s.objects && t.objects == Bump(s.objects, h, d)
    requires t.sessions == s.sessions && t.references == s.references
    ensures RingsOk(t) && Acyclic(t.objects) && IdsOk(t)
    ensures Total(t.objects) == Total(s.objects)
  {
    hide Counted, RingsOk, Acyclic, IdsOk;
    BumpKeepsRings(s, t, h, d);
    BumpKeepsRanks(s, h, d);
    IdsAgree(s, t);
    TotalUpdate(s.objects, h.target, t.objects[h.target]);
  }

  /** Taking a pin on a live object keeps the invariant, and saves an object that had no
      reference. */
  lemma AcquireKeeps(s: State, h: Hold, dying: set<Pointer>)
    requires InvBut(s, dying)
    requires h.target in s.objects && (s.objects[h.target].kind.ListKind? ==> h.locked)
    ensures InvBut(State(Bump(s.objects, h, 1), s.sessions, s.references, s.pins + multiset{h}), dying - {h.target})
  {
    hide RingsOk, Acyclic, IdsOk, CountedBy;
    var t := State(Bump(s.objects, h, 1), s.sessions, s.references, s.pins + multiset{h});
    BumpKeepsRest(s, t, h, 1);
    BumpUpCounted(s.objects, Slots(s), h);
    assert Slots(t) == Slots(s) + multiset{h};
    CountsNonNegative(s, h.target);
  }

  lemma CountsNonNegative(s: State, p: Pointer)
    requires Counted(s) && RingsOk(s) && p in s.objects
    ensures s.objects[p].internal >= 0 && s.objects[p].external >= 0 && 0 <= s.objects[p].lock <= s.objects[p].internal
  {
    assert RingOk(s.objects[p].ring, s.objects[p].external, s.references);
    assert ObjectRing(p, s.objects[p].ring, s.references);
    forall r | r in s.objects[p].ring
      ensures r in s.references && s.references[r].count > 0
    {
      assert RecordOk(s, r);
    }
    RingSumPositive(s.objects[p].ring, s.references);
  }

  lemma SlotIsLive(s: State, h: Hold)
    requires Counted(s) && h in Slots(s)
    ensures h.target in s.objects
  {
  }

  /** Giving up a pin may leave its target without any reference. */
  lemma ReleaseKeeps(s: State, h: Hold)
    requires Inv(s) && h in s.pins
    ensures h.target in s.objects
    ensures InvBut(State(Bump(s.objects, h, -1), s.sessions, s.references, s.pins - multiset{h}), {h.target})
  {
    hide RingsOk, Acyclic, IdsOk, CountedBy;
    SlotIsLive(s, h);
    var t := State(Bump(s.objects, h, -1), s.sessions, s.references, s.pins - multiset{h});
    BumpKeepsRest(s, t, h, -1);
    BumpDownCounted(s.objects, Slots(s), h);
    assert Slots(t) == Slots(s) - multiset{h};
  }

  lemma UnusedIsUnheld(s: State, p: Pointer)
    requires Counted(s) && RingsOk(s) && p in s.objects && !InUse(s.objects[p])
    ensures s.objects[p].ring == [] && s.objects[p].internal == 0
    ensures Hold(p, true) !in Slots(s) && Hold(p, false) !in Slots(s)
  {
    assert RingOk(s.objects[p].ring, s.objects[p].external, s.references);
    RingSumPositive(s.objects[p].ring, s.references);
  }

  lemma VanishCounted(objects: Objects, slots: multiset<Hold>, p: Pointer)
    requires CountedBy(objects, slots)
    requires Hold(p, true) !in slots && Hold(p, false) !in slots
    ensures CountedBy(objects - {p}, slots)
  {
    forall h | h in slots
      ensures h.target in objects - {p}
    {
      assert h == Hold(h.target, true) || h == Hold(h.target, false);
    }
  }

  /** An object without references has an empty ring and nothing holds it; removing it
      turns its own holds into pins that are still to be released. */
  lemma VanishKeeps(s: State, p: Pointer)
    requires InvBut(s, {p}) && p in s.objects && !InUse(s.objects[p])
    ensures s.objects[p].ring == []
    ensures Inv(State(s.objects - {p}, s.sessions, s.references, s.pins + multiset(s.objects[p].holds)))
  {
    hide CountedBy, RingsOk, Acyclic, IdsOk, InUse, HoldsLive;
    var t := State(s.objects - {p}, s.sessions, s.references, s.pins + multiset(s.objects[p].holds));
    UnusedIsUnheld(s, p);
    TotalSplit(s.objects, p);
    assert Slots(t) == Slots(s);
    VanishCounted(s.objects, Slots(s), p);
    RingsAgree(s, t);
    IdsAgree(s, t);
    HoldsAreLive(t);
    RanksAgree(s.objects, t.objects);
  }
}
