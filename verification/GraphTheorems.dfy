/** What the invariant of the object graph means: reference counting neither leaks nor frees
    early, containment is acyclic, a release destroys exactly what it should, and locked
    values are frozen in depth. */
module GraphTheorems {
  import opened ObjectGraph

  // ----- reachability -----

  /** Objects referenced directly by a pin or by a session that is not gone. */
  ghost function Roots(s: State, gone: set<Pointer>): set<Pointer> {
    (set h | h in s.pins :: h.target)
    + (set r | r in s.references && s.references[r].session !in gone :: s.references[r].obj)
  }

  ghost predicate Contains(objects: Objects, a: Pointer, b: Pointer) {
    a in objects && exists h :: h in objects[a].holds && h.target == b
  }

  ghost predicate Chain(objects: Objects, path: seq<Pointer>) {
    forall i | 0 <= i < |path| - 1 :: Contains(objects, path[i], path[i+1])
  }

  ghost predicate PathTo(s: State, gone: set<Pointer>, path: seq<Pointer>, p: Pointer) {
    && |path| > 0 && path[0] in Roots(s, gone) && path[|path| - 1] == p
    && Chain(s.objects, path)
  }

  ghost predicate Reachable(s: State, gone: set<Pointer>, p: Pointer) {
    exists path :: PathTo(s, gone, path, p)
  }

  lemma {:induction false} ReachableStays(s: State, live: set<Pointer>, gone: set<Pointer>, path: seq<Pointer>,
                                          p: Pointer)
    requires PathTo(s, gone, path, p) && Roots(s, gone) <= live
    requires forall a, b | a in live && Contains(s.objects, a, b) :: b in live
    ensures p in live
    decreases |path|
  {
    if |path| > 1 {
      var q := path[|path| - 2];
      assert PathTo(s, gone, path[..|path| - 1], q);
      ReachableStays(s, live, gone, path[..|path| - 1], q);
      assert Contains(s.objects, path[|path| - 2], path[|path| - 2 + 1]);
    }
  }

  lemma RootsAreLive(s: State)
    requires Counted(s) && RecordsLinked(s)
    ensures Roots(s, {}) <= s.objects.Keys
  {
    forall h | h in s.pins
      ensures h.target in s.objects
    {
      hide RecordsLinked;
      assert h in Slots(s);
    }
    forall r | r in s.references
      ensures s.references[r].obj in s.objects
    {
      hide Counted;
      assert RecordOk(s, r);
    }
    hide Counted, RecordsLinked;
  }

  lemma LiveIsClosed(s: State)
    requires Inv(s)
    ensures Roots(s, {}) <= s.objects.Keys
    ensures forall a, b | a in s.objects && Contains(s.objects, a, b) :: b in s.objects
  {
    hide Counted, RecordsLinked, RingsCounted, Acyclic, IdsOk, InUse;
    RootsAreLive(s);
    HoldsAreLive(s);
    hide Roots;
  }

  lemma {:induction false} RankBound(rank: map<Pointer, nat>) returns (bound: nat)
    ensures forall p | p in rank :: rank[p] <= bound
    decreases |rank|
  {
    bound := 0;
    if rank != map[] {
      var p :| p in rank;
      assert (rank - {p}).Keys == rank.Keys - {p};
      var b := RankBound(rank - {p});
      bound := if b < rank[p] then rank[p] else b;
      assert forall q | q in rank :: q == p || q in rank - {p};
    }
  }

  lemma EmptyRing(ring: seq<Pointer>, references: References)
    ensures ring == [] ==> RingSum(ring, references) == 0
  {
  }

  /** A live object has a reference from outside or a live owner. */
  lemma SomeoneHolds(s: State, p: Pointer) returns (root: bool, q: Pointer)
    requires Inv(s) && p in s.objects
    ensures root ==> p in Roots(s, {})
    ensures !root ==> q in s.objects && Contains(s.objects, q, p)
  {
    root, q := true, p;
    if s.objects[p].internal > 0 {
      var h := if Slots(s)[Hold(p, true)] > 0 then Hold(p, true) else Hold(p, false);
      assert h in Slots(s);
      if h !in s.pins {
        root := false;
        q := SlotOwner(s.objects, h);
      }
    } else {
      assert RingOk(s.objects[p].ring, s.objects[p].external, s.references);
      EmptyRing(s.objects[p].ring, s.references);
      var r := s.objects[p].ring[0];
      assert ObjectRing(p, s.objects[p].ring, s.references);
      assert r in s.references && s.references[r].obj == p;
    }
  }

  lemma {:induction false} LiveIsReachable(s: State, p: Pointer, rank: map<Pointer, nat>, bound: nat)
    requires Inv(s) && p in s.objects
    requires Ranked(s.objects, rank) && forall q | q in rank :: rank[q] <= bound
    ensures Reachable(s, {}, p)
    decreases bound - rank[p]
  {
    hide InvBut, PathTo, Roots, Contains;
    var root, q := SomeoneHolds(s, p);
    if root {
      RootPath(s, p);
    } else {
      HigherRank(s.objects, rank, q, p);
      LiveIsReachable(s, q, rank, bound);
      var path :| PathTo(s, {}, path, q);
      LongerPath(s, path, q, p);
    }
  }

  lemma RootPath(s: State, p: Pointer)
    requires p in Roots(s, {})
    ensures PathTo(s, {}, [p], p)
  {
  }

  lemma LongerPath(s: State, path: seq<Pointer>, q: Pointer, p: Pointer)
    requires PathTo(s, {}, path, q) && Contains(s.objects, q, p)
    ensures PathTo(s, {}, path + [p], p)
  {
    hide Roots, Contains;
  }

  lemma HigherRank(objects: Objects, rank: map<Pointer, nat>, q: Pointer, p: Pointer)
    requires Ranked(objects, rank) && Contains(objects, q, p) && p in objects
    ensures q in objects && q in rank && p in rank && rank[p] < rank[q]
  {
  }

  /** An object is in the inventory exactly when it is reachable, through containment, from
      a session's external reference or a pin: nothing leaks and nothing is freed early. */
  lemma LiveIffReachable(s: State)
    requires Inv(s)
    ensures forall p :: p in s.objects <==> Reachable(s, {}, p)
  {
    LiveIsClosed(s);
    var rank :| Ranked(s.objects, rank);
    var bound := RankBound(rank);
    forall p
      ensures p in s.objects <==> Reachable(s, {}, p)
    {
      if p in s.objects {
        LiveIsReachable(s, p, rank, bound);
      } else if Reachable(s, {}, p) {
        var path :| PathTo(s, {}, path, p);
        ReachableStays(s, s.objects.Keys, {}, path, p);
      }
    }
  }

  /** When the last session and the last pin are gone, so is every object. */
  lemma NothingWithoutRoots(s: State)
    requires Inv(s) && s.pins == multiset{} && s.references == map[]
    ensures s.objects == map[]
  {
    hide InvBut, Chain;
    LiveIffReachable(s);
    assert Roots(s, {}) == {};
    assert forall p, path :: !PathTo(s, {}, path, p);
  }

  lemma {:induction false} RanksFall(objects: Objects, rank: map<Pointer, nat>, path: seq<Pointer>)
    requires Ranked(objects, rank) && |path| > 0 && path[0] in objects && Chain(objects, path)
    ensures path[|path| - 1] in objects && rank[path[|path| - 1]] + |path| - 1 <= rank[path[0]]
    decreases |path|
  {
    if |path| > 1 {
      assert Contains(objects, path[0], path[0 + 1]);
      assert Chain(objects, path[1..]) by {
        forall i | 0 <= i < |path[1..]| - 1
          ensures Contains(objects, path[1..][i], path[1..][i+1])
        {
          assert Contains(objects, path[i+1], path[i+1+1]);
        }
      }
      RanksFall(objects, rank, path[1..]);
    }
  }

  /** No object contains itself, directly or through any chain of containers. */
  lemma ContainmentIsAcyclic(s: State, path: seq<Pointer>)
    requires Inv(s) && |path| > 1 && Chain(s.objects, path)
    ensures path[0] != path[|path| - 1]
  {
    var rank :| Ranked(s.objects, rank);
    assert Contains(s.objects, path[0], path[0 + 1]);
    RanksFall(s.objects, rank, path);
  }

  // ----- conservation -----

  /** All counts of a live object are accounted for: the external count is the sum over its ring,
      which has exactly the records of the object; the internal count is the number of slots
      that hold it, the lock count the number of those that lock it. So nothing without internal
      references is locked. */
  lemma ObjectConservation(s: State, p: Pointer)
    requires Inv(s) && p in s.objects
    ensures s.objects[p].external == RingSum(s.objects[p].ring, s.references)
    ensures forall r :: r in s.objects[p].ring <==> r in s.references && s.references[r].obj == p
    ensures Distinct(s.objects[p].ring)
    ensures s.objects[p].internal == Slots(s)[Hold(p, true)] + Slots(s)[Hold(p, false)] >= Slots(s)[Hold(p, true)] ==
              s.objects[p].lock >= 0
  {
    hide Acyclic, IdsOk, InUse;
    assert RingOk(s.objects[p].ring, s.objects[p].external, s.references);
    assert ObjectRing(p, s.objects[p].ring, s.references);
    forall r | r in s.references && s.references[r].obj == p
      ensures r in s.objects[p].ring
    {
      assert RecordOk(s, r);
    }
  }

  /** The same for a session and its ring. */
  lemma SessionConservation(s: State, q: Pointer)
    requires Inv(s) && q in s.sessions
    ensures s.sessions[q].external == RingSum(s.sessions[q].ring, s.references)
    ensures forall r :: r in s.sessions[q].ring <==> r in s.references && s.references[r].session == q
    ensures Distinct(s.sessions[q].ring)
    ensures forall r, t | r in s.sessions[q].ring && t in s.sessions[q].ring && r != t ::
              r in s.references && t in s.references && s.references[r].obj != s.references[t].obj
  {
    hide Counted, Acyclic, IdsOk, InUse;
    assert RingOk(s.sessions[q].ring, s.sessions[q].external, s.references);
    assert SessionRing(q, s.sessions[q].ring, s.references);
    forall r | r in s.references && s.references[r].session == q
      ensures r in s.sessions[q].ring
    {
      assert RecordOk(s, r);
    }
  }

  // ----- destruction -----

  /** t has no other objects than s, and the survivors' contents are unchanged. */
  ghost predicate Retained(s: State, t: State) {
    && t.objects.Keys <= s.objects.Keys
    && forall p | p in t.objects ::
         && t.objects[p].kind == s.objects[p].kind && t.objects[p].id == s.objects[p].id
         && t.objects[p].text == s.objects[p].text && t.objects[p].holds == s.objects[p].holds
  }

  /** The external references that do not belong to session q. */
  ghost function OthersOf(references: References, q: Pointer): References {
    map r | r in references && references[r].session != q :: references[r]
  }

  lemma OthersAreRoots(s: State, t: State, q: Pointer)
    requires t.pins == s.pins && t.references == OthersOf(s.references, q)
    ensures Roots(t, {}) == Roots(s, {q})
  {
    forall p
      ensures p in Roots(t, {}) <==> p in Roots(s, {q})
    {
      if r :| r in s.references && s.references[r].session != q && s.references[r].obj == p {
        assert r in t.references && t.references[r].obj == p;
      }
    }
  }

  lemma {:induction false} PathSurvives(s: State, t: State, path: seq<Pointer>, p: Pointer)
    requires Retained(s, t) && PathTo(t, {}, path, p)
    ensures Chain(s.objects, path)
  {
    forall i | 0 <= i < |path| - 1
      ensures Contains(s.objects, path[i], path[i+1])
    {
      assert Contains(t.objects, path[i], path[i+1]);
    }
  }

  /** Whenever references only go away, what is left is exactly what the remaining roots
      reach in the graph as it was before. */
  lemma SurvivorsAreReachable(s: State, t: State, gone: set<Pointer>)
    requires Inv(t) && Retained(s, t) && Roots(t, {}) == Roots(s, gone)
    ensures forall p :: p in t.objects <==> Reachable(s, gone, p)
  {
    hide InvBut;
    LiveIffReachable(t);
    LiveIsClosed(t);
    forall p
      ensures p in t.objects <==> Reachable(s, gone, p)
    {
      if p in t.objects {
        var path :| PathTo(t, {}, path, p);
        PathSurvives(s, t, path, p);
        assert PathTo(s, gone, path, p);
      } else if Reachable(s, gone, p) {
        var path :| PathTo(s, gone, path, p);
        forall a, b | a in t.objects && Contains(s.objects, a, b)
          ensures b in t.objects
        {
          assert Contains(t.objects, a, b);
        }
        ReachableStays(s, t.objects.Keys, gone, path, p);
      }
    }
  }

  // ----- the counts are determined -----

  lemma CountsDetermined(a: Objects, b: Objects, slots: multiset<Hold>)
    requires a.Keys == b.Keys && CountedBy(a, slots) && CountedBy(b, slots)
    ensures forall p | p in a :: a[p].internal == b[p].internal && a[p].lock == b[p].lock
  {
  }

  /** Two valid states with the same roots, records and rings, of which one only lost objects
      with respect to the other, are equal. */
  lemma StateIsDetermined(s: State, t: State)
    requires Inv(s) && Inv(t) && Retained(s, t)
    requires s.pins == t.pins && s.sessions == t.sessions && s.references == t.references
    requires forall p | p in t.objects ::
               t.objects[p].ring == s.objects[p].ring && t.objects[p].external == s.objects[p].external
    ensures s == t
  {
    hide RingsOk, Acyclic, IdsOk, CountedBy, Reachable, InUse;
    SurvivorsAreReachable(s, t, {});
    LiveIffReachable(s);
    assert s.objects.Keys == t.objects.Keys;
    TotalAgrees(s.objects, t.objects);
    CountsDetermined(s.objects, t.objects, Slots(s));
    assert forall p | p in s.objects :: s.objects[p] == t.objects[p];
  }

  lemma {:induction false} TotalAgrees(a: Objects, b: Objects)
    requires a.Keys == b.Keys && forall p | p in a :: a[p].holds == b[p].holds
    ensures Total(a) == Total(b)
    decreases |a|
  {
    if a != map[] {
      var p :| p in a && Total(a) == multiset(a[p].holds) + Total(a - {p});
      TotalSplit(b, p);
      TotalAgrees(a - {p}, b - {p});
    }
  }

  // ----- deep freeze -----

  datatype Value = Text(text: string) | Items(items: seq<Value>) | Opaque(kind: Kind, address: Pointer) | Cut

  /** The value of object p down to the given depth: bytes of strings, values of items. */
  ghost function Expand(objects: Objects, p: Pointer, depth: nat): Value
    requires HoldsLive(objects) && p in objects
    decreases depth
  {
    var o := objects[p];
    match o.kind
    case StringKind => Text(o.text)
    case ListKind =>
      if depth == 0 then Cut
      else
        HoldIsLive(objects, p);
        Items(seq(|o.holds|, i requires 0 <= i < |o.holds| => Expand(objects, o.holds[i].target, depth - 1)))
    case _ => Opaque(o.kind, p)
  }

  lemma HoldIsLive(objects: Objects, p: Pointer)
    requires HoldsLive(objects) && p in objects
    ensures forall i | 0 <= i < |objects[p].holds| :: objects[p].holds[i].target in objects
  {
    forall i | 0 <= i < |objects[p].holds|
      ensures objects[p].holds[i].target in objects
    {
      assert objects[p].holds[i] in objects[p].holds;
    }
  }

  /** What one request may do to locked strings and lists: nothing, as long as they live. */
  ghost predicate Respects(s: State, t: State) {
    forall p | p in s.objects && p in t.objects && s.objects[p].lock > 0 ::
      && t.objects[p].kind == s.objects[p].kind
      && (s.objects[p].kind.StringKind? ==> t.objects[p].text == s.objects[p].text)
      && (s.objects[p].kind.ListKind? ==> t.objects[p].holds == s.objects[p].holds)
  }

  lemma ItemIsLocked(s: State, p: Pointer, i: nat)
    requires Counted(s) && Acyclic(s.objects) && p in s.objects && s.objects[p].kind.ListKind?
             && i < |s.objects[p].holds|
    ensures s.objects[p].holds[i].target in s.objects && s.objects[s.objects[p].holds[i].target].lock > 0
  {
    var h := s.objects[p].holds[i];
    HoldIsSlot(s.objects, p, h);
    assert h in Slots(s);
    assert h == Hold(h.target, true);
  }

  /** One request leaves the value of a locked object unchanged, down to any depth. */
  lemma {:induction false} FrozenStep(s: State, t: State, p: Pointer, depth: nat)
    requires Counted(s) && Acyclic(s.objects) && Respects(s, t)
    requires HoldsLive(s.objects) && HoldsLive(t.objects)
    requires p in s.objects && p in t.objects && s.objects[p].lock > 0
    ensures Expand(s.objects, p, depth) == Expand(t.objects, p, depth)
    decreases depth
  {
    hide Counted, Acyclic, HoldsLive;
    if s.objects[p].kind.ListKind? && depth > 0 {
      HoldIsLive(s.objects, p);
      HoldIsLive(t.objects, p);
      var holds := s.objects[p].holds;
      forall i | 0 <= i < |holds|
        ensures Expand(s.objects, holds[i].target, depth - 1) == Expand(t.objects, holds[i].target, depth - 1)
      {
        ItemIsLocked(s, p, i);
        FrozenStep(s, t, holds[i].target, depth - 1);
      }
    }
  }

  /** A run of requests: valid states, each step leaving locked strings and lists alone. */
  ghost predicate FrozenTrace(trace: seq<State>) {
    && |trace| > 0
    && (forall i | 0 <= i < |trace| :: Inv(trace[i]))
    && (forall i | 0 <= i < |trace| - 1 :: Respects(trace[i], trace[i+1]))
  }

  lemma ValidHoldsLive(s: State)
    requires Inv(s)
    ensures Counted(s) && Acyclic(s.objects) && HoldsLive(s.objects)
  {
    HoldsAreLive(s);
  }

  /** As long as an object stays locked, its value is the same at the end of a run as at its
      beginning, down to any depth; so a list acquired as all strings stays all strings. */
  lemma {:induction false} FrozenRun(trace: seq<State>, p: Pointer, depth: nat)
    requires FrozenTrace(trace)
    requires forall i | 0 <= i < |trace| :: p in trace[i].objects && trace[i].objects[p].lock > 0
    ensures HoldsLive(trace[0].objects) && HoldsLive(trace[|trace| - 1].objects)
    ensures Expand(trace[0].objects, p, depth) == Expand(trace[|trace| - 1].objects, p, depth)
    decreases |trace|
  {
    hide InvBut, Respects, HoldsLive, Expand, Acyclic, Counted;
    ValidHoldsLive(trace[0]);
    if |trace| > 1 {
      assert Respects(trace[0], trace[0 + 1]);
      ValidHoldsLive(trace[1]);
      FrozenStep(trace[0], trace[1], p, depth);
      assert FrozenTrace(trace[1..]) by {
        forall i | 0 <= i < |trace[1..]| - 1
          ensures Respects(trace[1..][i], trace[1..][i+1])
        {
          assert Respects(trace[i+1], trace[i+1+1]);
        }
      }
      FrozenRun(trace[1..], p, depth);
    }
  }

  ghost predicate LockedThroughout(trace: seq<State>, p: Pointer) {
    forall i | 0 <= i < |trace| :: p in trace[i].objects && trace[i].objects[p].lock > 0
  }

  /** What is locked throughout has the contents it had at the beginning. */
  lemma {:induction false} SameContents(trace: seq<State>, p: Pointer, i: nat)
    requires FrozenTrace(trace) && LockedThroughout(trace, p) && i < |trace|
    ensures trace[i].objects[p].kind == trace[0].objects[p].kind
    ensures trace[0].objects[p].kind.StringKind? ==> trace[i].objects[p].text == trace[0].objects[p].text
    ensures trace[0].objects[p].kind.ListKind? ==> trace[i].objects[p].holds == trace[0].objects[p].holds
  {
    hide Inv;
    if i > 0 {
      SameContents(trace, p, i - 1);
      assert Respects(trace[i - 1], trace[i - 1 + 1]);
    }
  }

  lemma ItemIsLockedThroughout(trace: seq<State>, p: Pointer, k: nat)
    requires FrozenTrace(trace) && LockedThroughout(trace, p)
    requires trace[0].objects[p].kind.ListKind? && k < |trace[0].objects[p].holds|
    ensures LockedThroughout(trace, trace[0].objects[p].holds[k].target)
  {
    hide InvBut, Counted, Acyclic, Respects;
    forall i | 0 <= i < |trace|
      ensures var q := trace[0].objects[p].holds[k].target; q in trace[i].objects && trace[i].objects[q].lock > 0
    {
      SameContents(trace, p, i);
      ValidHoldsLive(trace[i]);
      ItemIsLocked(trace[i], p, k);
    }
  }

  /** The chain leads from list to item by these indices. */
  ghost predicate Leads(objects: Objects, chain: seq<Pointer>, indices: seq<nat>) {
    && |chain| == |indices| + 1
    && forall k | 0 <= k < |indices| ::
         && chain[k] in objects && objects[chain[k]].kind.ListKind? && indices[k] < |objects[chain[k]].holds|
         && objects[chain[k]].holds[indices[k]].target == chain[k + 1]
  }

  /** Whoever follows the same indices from a list that stays locked comes to the same objects at
      the end of a run as at its beginning, and finds the same text there. */
  lemma {:induction false} FrozenPath(trace: seq<State>, chain: seq<Pointer>, indices: seq<nat>)
    requires FrozenTrace(trace) && Leads(trace[0].objects, chain, indices) && LockedThroughout(trace, chain[0])
    ensures Leads(trace[|trace| - 1].objects, chain, indices)
    ensures var s, t, q := trace[0], trace[|trace| - 1], chain[|indices|];
            && q in s.objects && q in t.objects && t.objects[q].kind == s.objects[q].kind
            && (s.objects[q].kind.StringKind? ==> t.objects[q].text == s.objects[q].text)
    decreases |indices|
  {
    hide InvBut, FrozenTrace, LockedThroughout;
    IsLocked(trace, chain[0]);
    SameContents(trace, chain[0], |trace| - 1);
    if indices != [] {
      ItemIsLockedThroughout(trace, chain[0], indices[0]);
      assert Leads(trace[0].objects, chain[1..], indices[1..]) by {
        assert forall k | 0 <= k < |indices[1..]| :: indices[1..][k] == indices[k + 1];
      }
      FrozenPath(trace, chain[1..], indices[1..]);
      assert forall k | 0 < k < |indices| :: indices[k] == indices[1..][k - 1] && chain[k] == chain[1..][k - 1];
    }
  }

  lemma IsLocked(trace: seq<State>, p: Pointer)
    requires FrozenTrace(trace) && LockedThroughout(trace, p)
    ensures |trace| > 0 && forall i | 0 <= i < |trace| :: p in trace[i].objects
  {
    hide Inv, Respects;
  }

  /** A list's items as seen by list_ensure_item_type stay strings while it is locked. */
  lemma OnlyStringsFrozen(s: State, t: State, p: Pointer)
    requires Inv(s) && Inv(t) && Respects(s, t)
    requires p in s.objects && p in t.objects && s.objects[p].kind.ListKind? && s.objects[p].lock > 0
    requires OnlyStrings(s.objects, s.objects[p].holds)
    ensures OnlyStrings(t.objects, t.objects[p].holds)
  {
    hide InvBut, Counted, Acyclic;
    ValidHoldsLive(s);
    ValidHoldsLive(t);
    forall h | h in t.objects[p].holds
      ensures h.target in t.objects && t.objects[h.target].kind.StringKind?
    {
      var i :| 0 <= i < |s.objects[p].holds| && s.objects[p].holds[i] == h;
      ItemIsLocked(s, p, i);
    }
  }
}
