/** External reference records: creating one, changing its count, and unlinking it from
    the ring of its object and the ring of its session. */
module ReferenceRings {
  import opened ObjectGraph

  /** node_remove: the ring without record r. */
  function Without(ring: seq<Pointer>, r: Pointer): (rest: seq<Pointer>)
    ensures forall t | t in rest :: t in ring
  {
    if ring == [] then []
    else if ring[0] == r then ring[1..]
    else [ring[0]] + Without(ring[1..], r)
  }

  lemma {:induction false} WithoutMembers(ring: seq<Pointer>, r: Pointer)
    requires Distinct(ring)
    ensures Distinct(Without(ring, r))
    ensures forall t :: t in Without(ring, r) <==> t in ring && t != r
  {
    if ring != [] {
      assert Distinct(ring[1..]);
      assert ring == [ring[0]] + ring[1..];
      if ring[0] == r {
        assert r !in ring[1..];
      } else {
        var rest := Without(ring[1..], r);
        WithoutMembers(ring[1..], r);
        assert ring[0] !in ring[1..];
        assert ring[0] !in rest;
        assert Without(ring, r) == [ring[0]] + rest;
      }
    }
  }

  lemma {:induction false} WithoutSum(ring: seq<Pointer>, r: Pointer, references: References)
    requires Distinct(ring) && r in references
    ensures RingSum(Without(ring, r), references)
         == RingSum(ring, references) - if r in ring then references[r].count else 0
  {
    if ring != [] && ring[0] != r {
      assert Distinct(ring[1..]);
      WithoutSum(ring[1..], r, references);
      assert Without(ring, r)[1..] == Without(ring[1..], r);
      assert ring == [ring[0]] + ring[1..];
    } else if ring != [] {
      RingSumSplit(ring, 0, references);
      assert ring[..0] + ring[1..] == ring[1..];
    }
  }

  lemma AppendedRing(ring: seq<Pointer>, external: int, references: References, r: Pointer, e: Reference)
    requires RingOk(ring, external, references) && r !in references
    ensures RingOk(ring + [r], external + e.count, references[r := e])
    ensures RingOk(ring, external, references[r := e])
  {
    RingSumSame(ring, references, references[r := e]);
    RingSumAppend(ring, r, references[r := e]);
  }

  lemma {:induction false} AdjustedSum(ring: seq<Pointer>, references: References, r: Pointer, e: Reference)
    requires Distinct(ring) && (forall t | t in ring :: t in references) && r in references
    ensures RingSum(ring, references[r := e])
         == RingSum(ring, references) + if r in ring then e.count - references[r].count else 0
  {
    if ring != [] {
      assert Distinct(ring[1..]);
      assert forall t | t in ring[1..] :: t in ring;
      AdjustedSum(ring[1..], references, r, e);
      assert ring == [ring[0]] + ring[1..];
    }
  }

  lemma AdjustedRing(ring: seq<Pointer>, external: int, references: References, r: Pointer, e: Reference)
    requires RingOk(ring, external, references) && r in references
    ensures RingOk(ring, if r in ring then external + e.count - references[r].count else external, references[r := e])
  {
    AdjustedSum(ring, references, r, e);
  }

  lemma UnlinkedRing(ring: seq<Pointer>, external: int, references: References, r: Pointer)
    requires RingOk(ring, external, references) && r in references
    ensures RingOk(Without(ring, r), if r in ring then external - references[r].count else external, references - {r})
    ensures r !in ring ==> RingOk(ring, external, references - {r})
  {
    WithoutMembers(ring, r);
    WithoutSum(ring, r, references);
    RingSumSame(Without(ring, r), references, references - {r});
    if r !in ring {
      RingSumSame(ring, references, references - {r});
    }
  }

  /** r is the record of session q's references to object p. */
  ghost predicate IsRecord(references: References, r: Pointer, p: Pointer, q: Pointer) {
    r in references && references[r].obj == p && references[r].session == q
  }

  // ----- the three changes -----

  /** A new record of count one for object p and session q. */
  function Link(s: State, p: Pointer, q: Pointer, r: Pointer): State
    requires p in s.objects && q in s.sessions
  {
    var o, n := s.objects[p], s.sessions[q];
    State(s.objects[p := o.(external := o.external + 1, ring := o.ring + [r])],
          s.sessions[q := n.(external := n.external + 1, ring := n.ring + [r])],
          s.references[r := Reference(p, q, 1)], s.pins)
  }

  /** The count of record r changes by d. */
  function Adjust(s: State, r: Pointer, d: int): State
    requires r in s.references && s.references[r].obj in s.objects && s.references[r].session in s.sessions
  {
    var e := s.references[r];
    var o, n := s.objects[e.obj], s.sessions[e.session];
    State(s.objects[e.obj := o.(external := o.external + d)],
          s.sessions[e.session := n.(external := n.external + d)],
          s.references[r := e.(count := e.count + d)], s.pins)
  }

  /** Record r leaves both rings, taking its whole count with it. */
  function Unlink(s: State, r: Pointer): State
    requires r in s.references && s.references[r].obj in s.objects && s.references[r].session in s.sessions
  {
    var e := s.references[r];
    var o, n := s.objects[e.obj], s.sessions[e.session];
    State(s.objects[e.obj := o.(external := o.external - e.count, ring := Without(o.ring, r))],
          s.sessions[e.session := n.(external := n.external - e.count, ring := Without(n.ring, r))],
          s.references - {r}, s.pins)
  }

  /** A ring belongs to owner p when its entries are records of object p, without
      duplicates and adding up to p's external count. */
  ghost predicate ObjectOk(s: State, p: Pointer)
    requires p in s.objects
  {
    ObjectRing(p, s.objects[p].ring, s.references) && RingOk(s.objects[p].ring, s.objects[p].external, s.references)
  }

  ghost predicate SessionOk(s: State, q: Pointer)
    requires q in s.sessions
  {
    SessionRing(q, s.sessions[q].ring, s.references) && RingOk(s.sessions[q].ring, s.sessions[q].external, s.references)
  }

  lemma RingsOkByOwner(s: State)
    ensures RingsOk(s) <==>
              && (forall r | r in s.references :: RecordOk(s, r))
              && (forall p | p in s.objects :: ObjectOk(s, p))
              && (forall q | q in s.sessions :: SessionOk(s, q))
              && OnePerPair(s.references)
  {
    hide RecordOk, ObjectRing, SessionRing, RingOk, OnePerPair;
  }

  lemma LinkOwner(s: State, p: Pointer, q: Pointer, r: Pointer, x: Pointer)
    requires p in s.objects && q in s.sessions && r !in s.references
    ensures (x in s.references && RecordOk(s, x)) || x == r ==> RecordOk(Link(s, p, q, r), x)
    ensures x in s.objects && ObjectOk(s, x) ==> ObjectOk(Link(s, p, q, r), x)
    ensures x in s.sessions && SessionOk(s, x) ==> SessionOk(Link(s, p, q, r), x)
  {
    if x in s.objects && ObjectOk(s, x) {
      AppendedRing(s.objects[x].ring, s.objects[x].external, s.references, r, Reference(p, q, 1));
    }
    if x in s.sessions && SessionOk(s, x) {
      AppendedRing(s.sessions[x].ring, s.sessions[x].external, s.references, r, Reference(p, q, 1));
    }
  }

  lemma NewPair(references: References, r: Pointer, e: Reference)
    requires OnePerPair(references) && r !in references
    requires forall t :: !IsRecord(references, t, e.obj, e.session)
    ensures OnePerPair(references[r := e])
  {
    assert forall t | t in references :: !IsRecord(references, t, e.obj, e.session);
  }

  lemma LinkKeepsRings(s: State, p: Pointer, q: Pointer, r: Pointer)
    requires RingsOk(s) && p in s.objects && q in s.sessions && r !in s.references
    requires forall t :: !IsRecord(s.references, t, p, q)
    ensures RingsOk(Link(s, p, q, r))
  {
    hide RingsOk, RecordOk, ObjectOk, SessionOk;
    RingsOkByOwner(s);
    RingsOkByOwner(Link(s, p, q, r));
    forall x { LinkOwner(s, p, q, r, x); }
    assert OnePerPair(Link(s, p, q, r).references) by { NewPair(s.references, r, Reference(p, q, 1)); }
  }

  lemma AdjustOwner(s: State, r: Pointer, d: int, x: Pointer)
    requires r in s.references && RecordOk(s, r) && s.references[r].count + d > 0
    ensures x in s.references && RecordOk(s, x) ==> RecordOk(Adjust(s, r, d), x)
    ensures x in s.objects && ObjectOk(s, x) ==> ObjectOk(Adjust(s, r, d), x)
    ensures x in s.sessions && SessionOk(s, x) ==> SessionOk(Adjust(s, r, d), x)
  {
    var e := s.references[r].(count := s.references[r].count + d);
    if x in s.objects && ObjectOk(s, x) {
      AdjustedRing(s.objects[x].ring, s.objects[x].external, s.references, r, e);
    }
    if x in s.sessions && SessionOk(s, x) {
      AdjustedRing(s.sessions[x].ring, s.sessions[x].external, s.references, r, e);
    }
  }

  lemma AdjustKeepsRings(s: State, r: Pointer, d: int)
    requires RingsOk(s) && r in s.references && s.references[r].count + d > 0
    ensures RecordOk(s, r) && RingsOk(Adjust(s, r, d))
  {
    hide RingsOk, ObjectOk, SessionOk;
    RingsOkByOwner(s);
    assert RecordOk(s, r);
    RingsOkByOwner(Adjust(s, r, d));
    forall x { AdjustOwner(s, r, d, x); }
  }

  lemma UnlinkObject(s: State, r: Pointer, x: Pointer)
    requires r in s.references && RecordOk(s, r) && x in s.objects && ObjectOk(s, x)
    ensures ObjectOk(Unlink(s, r), x)
  {
    UnlinkedRing(s.objects[x].ring, s.objects[x].external, s.references, r);
    WithoutMembers(s.objects[x].ring, r);
  }

  lemma UnlinkSession(s: State, r: Pointer, x: Pointer)
    requires r in s.references && RecordOk(s, r) && x in s.sessions && SessionOk(s, x)
    ensures SessionOk(Unlink(s, r), x)
  {
    UnlinkedRing(s.sessions[x].ring, s.sessions[x].external, s.references, r);
    WithoutMembers(s.sessions[x].ring, r);
  }

  lemma UnlinkRecord(s: State, r: Pointer, x: Pointer)
    requires r in s.references && RecordOk(s, r) && x in s.references && RecordOk(s, x) && x != r
    requires ObjectOk(s, s.references[r].obj) && SessionOk(s, s.references[r].session)
    ensures RecordOk(Unlink(s, r), x)
  {
    WithoutMembers(s.objects[s.references[r].obj].ring, r);
    WithoutMembers(s.sessions[s.references[r].session].ring, r);
  }

  lemma UnlinkKeepsRings(s: State, r: Pointer)
    requires RingsOk(s) && r in s.references
    ensures RecordOk(s, r) && RingsOk(Unlink(s, r))
  {
    hide RingsOk, ObjectOk, SessionOk;
    RingsOkByOwner(s);
    assert RecordOk(s, r);
    var t := Unlink(s, r);
    RingsOkByOwner(t);
    forall x | x in s.objects ensures ObjectOk(t, x) { UnlinkObject(s, r, x); }
    forall x | x in s.sessions ensures SessionOk(t, x) { UnlinkSession(s, r, x); }
    forall x | x in t.references ensures RecordOk(t, x) { UnlinkRecord(s, r, x); }
  }
}
