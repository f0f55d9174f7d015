/** 16-bit identifier allocation as in inventory.c: a wrapping counter that skips
    identifiers still in use. The same algorithm serves objects (several tables, one
    number space) and sessions (a single table). */
module IdAllocation {

  const ID_MAX: nat := 65535

  // Identifiers are unsigned 16-bit numbers; zero never names a live object or session.
  type Id = x: nat | x <= ID_MAX

  datatype Allocation = Allocated(id: Id) | Exhausted

  /** The identifiers found in any of the tables. */
  ghost function Used(tables: seq<seq<Id>>): set<Id> {
    set k, i | 0 <= k < |tables| && 0 <= i < |tables[k]| :: tables[k][i]
  }

  /** The i-th candidate tried from counter value c: the counter skips zero and wraps
      from 65535 back to 1. */
  function Candidate(c: Id, i: nat): (r: Id)
    ensures 1 <= r
  {
    ((if c == 0 then 1 else c) - 1 + i) % ID_MAX + 1
  }

  function Successor(id: Id): Id { (id + 1) % (ID_MAX + 1) }

  lemma CandidateNext(c: Id, i: nat)
    ensures Candidate(c, 0) == (if c == 0 then 1 else c)
    ensures Candidate(c, i + 1) == (var s := Successor(Candidate(c, i)); if s == 0 then 1 else s)
  {
    var b := (if c == 0 then 1 else c) - 1 + i;
    var q, r := b / ID_MAX, b % ID_MAX;
    assert b == q * ID_MAX + r;
    if r == ID_MAX - 1 {
      assert b + 1 == (q + 1) * ID_MAX;
      assert (b + 1) % ID_MAX == 0;
    } else {
      assert b + 1 == q * ID_MAX + (r + 1);
      assert (b + 1) % ID_MAX == r + 1;
    }
  }

  /** One full turn of the counter tries every non-zero identifier. */
  lemma EveryIdIsTried(c: Id, id: Id) returns (i: nat)
    requires id != 0
    ensures i < ID_MAX && Candidate(c, i) == id
  {
    var b := (if c == 0 then 1 else c) - 1;
    i := if id - 1 >= b then id - 1 - b else id - 1 - b + ID_MAX;
    assert (b + i) % ID_MAX == id - 1;
  }

  lemma FullTurn(c: Id)
    ensures Candidate(c, ID_MAX) == Candidate(c, 0)
  {
    var b := (if c == 0 then 1 else c) - 1;
    Turned(b + ID_MAX);
    Turned(b);
  }

  method Collides(tables: seq<seq<Id>>, candidate: Id) returns (collision: bool)
    ensures collision <==> candidate in Used(tables)
  {
    collision := false;
    for t := 0 to |tables|
      invariant !collision
      invariant forall k, i | 0 <= k < t && 0 <= i < |tables[k]| :: tables[k][i] != candidate
    {
      for k := 0 to |tables[t]|
        invariant !collision
        invariant forall i | 0 <= i < k :: tables[t][i] != candidate
      {
        if tables[t][k] == candidate {
          collision := true;
          return;
        }
      }
    }
  }

  /** After n collisions, id is the first candidate that is free. */
  ghost predicate FirstFree(tables: seq<seq<Id>>, counter: Id, n: nat, id: Id) {
    && n < ID_MAX
    && id == Candidate(counter, n)
    && id !in Used(tables)
    && forall i: nat | i < n :: Candidate(counter, i) in Used(tables)
  }

  // ----- what identifiers a counter gives out -----

  /** Counting from c on, and from the end back to the beginning, x comes before y. */
  ghost predicate InTurn(c: nat, x: nat, y: nat) {
    c <= x < y || x < y < c || y < c <= x
  }

  /** The identifier is free, no other free one comes before it when counting on from the counter,
      and the counter is behind it afterwards. */
  ghost predicate GivesOut(used: set<nat>, counter: Id, id: nat, counter': Id) {
    && 1 <= id <= ID_MAX && id !in used && counter' == (id + 1) % (ID_MAX + 1)
    && forall other | 1 <= other <= ID_MAX && other !in used && other != id :: InTurn(counter, id, other)
  }

  /** Nothing was given out: the counter is where it was, or was only moved from zero to one or
      back. */
  ghost predicate SameTurn(counter: Id, counter': Id) {
    counter' == counter || (counter <= 1 && counter' <= 1)
  }

  ghost predicate CountsOn(used: set<nat>, counter: Id, counter': Id) {
    SameTurn(counter, counter') || exists id :: GivesOut(used, counter, id, counter')
  }

  lemma SameUse(used: set<nat>, used': set<nat>, counter: Id, id: nat, counter': Id)
    requires GivesOut(used, counter, id, counter')
    requires forall x | 1 <= x <= ID_MAX :: x in used <==> x in used'
    ensures GivesOut(used', counter, id, counter')
  {
  }

  lemma InOrder(c: Id, n: nat, m: nat)
    requires n < m < ID_MAX
    ensures InTurn(c, Candidate(c, n), Candidate(c, m))
  {
    var b := (if c == 0 then 1 else c) - 1;
    Turned(b + n);
    Turned(b + m);
  }

  lemma Turned(k: nat)
    requires k < 2 * ID_MAX
    ensures k % ID_MAX == if k < ID_MAX then k else k - ID_MAX
  {
  }

  lemma FirstIsInTurn(tables: seq<seq<Id>>, counter: Id, n: nat, id: Id)
    requires FirstFree(tables, counter, n, id)
    ensures GivesOut(Used(tables), counter, id, Successor(id))
  {
    forall other | 1 <= other <= ID_MAX && other !in Used(tables) && other != id
      ensures InTurn(counter, id, other)
    {
      var m := EveryIdIsTried(counter, other);
      InOrder(counter, n, m);
    }
  }

  /** The next identifier is the first free one behind the one before, which itself is the last
      in the order: it is only given out again when no other one is free. */
  lemma InARow(used: set<nat>, c: Id, id: nat, c': Id, used': set<nat>, id': nat, c'': Id)
    requires GivesOut(used, c, id, c') && GivesOut(used', c', id', c'')
    ensures forall other | 1 <= other <= ID_MAX && other !in used' && other != id' ::
              id < id' < other || id' < other <= id || other <= id < id'
    ensures id' == id ==> forall other | 1 <= other <= ID_MAX && other != id :: other in used'
  {
  }

  // ----- runs of a counter -----

  /** At step k the identifier was in use, or it was the one given out. */
  ghost predicate Taken(used: seq<set<nat>>, counters: seq<Id>, k: nat, x: nat)
    requires k < |used| && k + 1 < |counters|
  {
    x in used[k] || GivesOut(used[k], counters[k], x, counters[k + 1])
  }

  ghost predicate Counting(used: seq<set<nat>>, counters: seq<Id>) {
    && |counters| == |used|
    && forall k: nat | k + 1 < |counters| :: CountsOn(used[k], counters[k], counters[k + 1])
  }

  /** As long as x is passed over, the counter has not come back to the identifier given out. */
  lemma {:induction false} StillAhead(used: seq<set<nat>>, counters: seq<Id>, i: nat, j: nat, id: nat, x: nat)
    requires Counting(used, counters) && i < j < |counters|
    requires GivesOut(used[i], counters[i], id, counters[i + 1])
    requires 1 <= x <= ID_MAX && x != id && forall k | i < k < j :: !Taken(used, counters, k, x)
    ensures InTurn(counters[j], x, id)
    decreases j
  {
    if i + 1 < j {
      StillAhead(used, counters, i, j - 1, id, x);
      assert CountsOn(used[j - 1], counters[j - 1], counters[j]);
      assert !Taken(used, counters, j - 1, x);
      if !SameTurn(counters[j - 1], counters[j]) {
        var y :| GivesOut(used[j - 1], counters[j - 1], y, counters[j]);
        assert InTurn(counters[j - 1], y, x);
      }
    }
  }

  /** An identifier that was given out does not come back until the counter has gone round: any
      other one was in use, or given out, at some step in between. */
  lemma GoesRound(used: seq<set<nat>>, counters: seq<Id>, i: nat, j: nat, id: nat, x: nat)
    requires Counting(used, counters) && i < j < |counters| - 1
    requires GivesOut(used[i], counters[i], id, counters[i + 1])
    requires GivesOut(used[j], counters[j], id, counters[j + 1])
    requires 1 <= x <= ID_MAX && x != id
    ensures exists k :: i < k <= j && Taken(used, counters, k, x)
  {
    if forall k | i < k < j :: !Taken(used, counters, k, x) {
      StillAhead(used, counters, i, j, id, x);
      assert !InTurn(counters[j], id, x);
      assert Taken(used, counters, j, x);
    }
  }

  /** Next free identifier and the counter's new value. The first free candidate in the
      counter's cyclic order is chosen, and exhaustion is reported exactly when all 65535
      non-zero identifiers are in use. */
  method NextId(tables: seq<seq<Id>>, counter: Id) returns (result: Allocation, counter': Id)
    ensures result.Allocated? ==> GivesOut(Used(tables), counter, result.id, counter')
    ensures result.Allocated? ==> (exists n: nat :: FirstFree(tables, counter, n, result.id))
    ensures result.Exhausted? <==> forall id: Id | id != 0 :: id in Used(tables)
    ensures result.Exhausted? ==> SameTurn(counter, counter')
  {
    counter' := counter;
    CandidateNext(counter, 0);
    for i: nat := 0 to ID_MAX
      invariant (if counter' == 0 then 1 else counter') == Candidate(counter, i)
      invariant forall j: nat | j < i :: Candidate(counter, j) in Used(tables)
    {
      if counter' == 0 {
        counter' := 1;
      }
      var candidate := counter';
      counter' := Successor(counter');
      var collision := Collides(tables, candidate);
      if !collision {
        assert FirstFree(tables, counter, i, candidate);
        FirstIsInTurn(tables, counter, i, candidate);
        return Allocated(candidate), counter';
      }
      CandidateNext(counter, i);
    }
    forall id: Id | id != 0
      ensures id in Used(tables)
    {
      var n := EveryIdIsTried(counter, id);
    }
    FullTurn(counter);
    result := Exhausted;
  }
}
