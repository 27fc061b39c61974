/** Duty rotation: which roster member is next, and what that order guarantees the members. */
module Rotation {
  import opened Sequences
  import opened SchedulingTables
  import opened BookingRoutes

  type Seats = map<Seat, Membership>

  // ---- ORDER BY active_matters ASC, last_assigned_at ASC NULLS FIRST ----

  /** Negative when the first time sorts first; no time sorts before every time. */
  function CompareTimes(s: Option<int>, t: Option<int>): int {
    if s == t then 0
    else if s.None? then -1
    else if t.None? then 1
    else s.value - t.value
  }

  function Compare(a: Membership, b: Membership): int {
    if a.activeMatters != b.activeMatters then a.activeMatters - b.activeMatters
    else CompareTimes(a.lastAssignedAt, b.lastAssignedAt)
  }

  predicate Assignable(m: Membership) {
    m.available && m.activeMatters < m.capacity && !m.conflictBlocked
  }

  predicate HasRoom(seats: Seats, roster: Id, p: Id) {
    (roster, p) in seats && Assignable(seats[(roster, p)])
  }

  /** The rows of the query: `pool` holds the providers that pass its conditions on provider, service and tier. */
  predicate Candidate(seats: Seats, roster: Id, pool: set<Id>, p: Id) {
    p in pool && HasRoom(seats, roster, p)
  }

  /** No row sorts before p's. Rows that compare equal may come in either order. */
  predicate IsNext(seats: Seats, roster: Id, pool: set<Id>, p: Id) {
    && Candidate(seats, roster, pool, p)
    && forall q :: q in pool && Candidate(seats, roster, pool, q) ==>
         Compare(seats[(roster, p)], seats[(roster, q)]) <= 0
  }

  /** The member can be given a need: in the pool and the roster, available, not blocked, and below capacity. */
  predicate Offered(seats: Seats, roster: Id, pool: set<Id>, p: Id) {
    && p in pool && (roster, p) in seats
    && seats[(roster, p)].available && !seats[(roster, p)].conflictBlocked
    && seats[(roster, p)].activeMatters < seats[(roster, p)].capacity
  }

  /** Fewer matters first; among equals whoever was never assigned, then whoever was assigned longest ago. */
  predicate SortsFirst(m: Membership, n: Membership) {
    || m.activeMatters < n.activeMatters
    || (m.activeMatters == n.activeMatters &&
        (m.lastAssignedAt == None || (n.lastAssignedAt != None && m.lastAssignedAt.value <= n.lastAssignedAt.value)))
  }

  lemma NextIsOfferedFirst(seats: Seats, roster: Id, pool: set<Id>, p: Id)
    ensures IsNext(seats, roster, pool, p) <==>
            Offered(seats, roster, pool, p) &&
            forall q :: q in pool && Offered(seats, roster, pool, q) ==>
              SortsFirst(seats[(roster, p)], seats[(roster, q)])
  {
    forall q
      ensures Candidate(seats, roster, pool, q) <==> Offered(seats, roster, pool, q)
    {
    }
    if Offered(seats, roster, pool, p) {
      forall q | q in pool && Offered(seats, roster, pool, q)
        ensures Compare(seats[(roster, p)], seats[(roster, q)]) <= 0 <==>
                SortsFirst(seats[(roster, p)], seats[(roster, q)])
      {
      }
    }
  }

  function BySeat(seats: Seats, roster: Id): (Id, Id) -> int {
    (p, q) => if (roster, p) in seats && (roster, q) in seats then Compare(seats[(roster, p)], seats[(roster, q)])
              else 0
  }

  lemma SeatOrderIsLinear(seats: Seats, roster: Id, rows: seq<Id>)
    requires forall p :: p in rows ==> (roster, p) in seats
    ensures Linear(BySeat(seats, roster), rows)
  {
    var cmp := BySeat(seats, roster);
    forall x, y | x in rows && y in rows
      ensures cmp(x, y) == Compare(seats[(roster, x)], seats[(roster, y)])
    {
    }
    forall x, y, z | x in rows && y in rows && z in rows && cmp(x, y) <= 0 && cmp(y, z) <= 0
      ensures cmp(x, z) <= 0
    {
      assert Compare(seats[(roster, x)], seats[(roster, z)]) <= 0;
    }
  }

  /** ORDER BY … LIMIT 1 over the rows in whatever order the scan delivers them. */
  method SelectNext(seats: Seats, roster: Id, pool: set<Id>, rows: seq<Id>) returns (next: Option<Id>)
    requires forall p :: p in rows <==> Candidate(seats, roster, pool, p)
    ensures next.None? <==> forall p :: p in pool ==> !Candidate(seats, roster, pool, p)
    ensures next.Some? ==> IsNext(seats, roster, pool, next.value)
    ensures next.None? <==> forall p :: p in pool ==> !Offered(seats, roster, pool, p)
    ensures next.Some? ==> Offered(seats, roster, pool, next.value) &&
                           forall q :: q in pool && Offered(seats, roster, pool, q) ==>
                             SortsFirst(seats[(roster, next.value)], seats[(roster, q)])
  {
    if rows == [] { return None; }
    var cmp := BySeat(seats, roster);
    SeatOrderIsLinear(seats, roster, rows);
    SortHeadIsLeast(cmp, rows);
    var p := SortBy(cmp, rows)[0];
    forall q | q in pool && Candidate(seats, roster, pool, q)
      ensures Compare(seats[(roster, p)], seats[(roster, q)]) <= 0
    {
      assert q in rows;
      assert q != p ==> cmp(p, q) <= 0;
    }
    NextIsOfferedFirst(seats, roster, pool, p);
    return Some(p);
  }

  /** UPDATE roster_membership SET active_matters = active_matters + 1, last_assigned_at = now() */
  function TakeSeat(seats: Seats, seat: Seat, now: int): Seats
    requires seat in seats
  {
    seats[seat := Taken(seats[seat], now)]
  }

  function Taken(m: Membership, now: int): Membership {
    m.(activeMatters := m.activeMatters + 1, lastAssignedAt := Some(now))
  }

  // ---- Runs of assignments without releases ----

  /** One assignment, its instant, and the providers that passed the query's conditions for that need at that
      instant. */
  datatype Turn = Turn(provider: Id, at: int, pool: set<Id>)

  predicate Rotates(seats: Seats, roster: Id, run: seq<Turn>)
    decreases |run|
  {
    run == [] ||
    (IsNext(seats, roster, run[0].pool, run[0].provider) &&
     Rotates(TakeSeat(seats, (roster, run[0].provider), run[0].at), roster, run[1..]))
  }

  function After(seats: Seats, roster: Id, run: seq<Turn>): Seats
    requires Rotates(seats, roster, run)
    decreases |run|
  {
    if run == [] then seats else After(TakeSeat(seats, (roster, run[0].provider), run[0].at), roster, run[1..])
  }

  // ---- Loads ----

  /** Two members that could both still be assigned differ by at most one matter. */
  predicate Even(seats: Seats, roster: Id, p: Id, q: Id) {
    HasRoom(seats, roster, p) && HasRoom(seats, roster, q) ==>
      -1 <= seats[(roster, p)].activeMatters - seats[(roster, q)].activeMatters <= 1
  }

  /** A turn's pool holds both members or neither. */
  predicate Alike(pool: set<Id>, p: Id, q: Id) {
    p in pool <==> q in pool
  }

  predicate AlikeThroughout(run: seq<Turn>, p: Id, q: Id) {
    forall i :: 0 <= i < |run| ==> Alike(run[i].pool, p, q)
  }

  lemma AssigningKeepsEven(seats: Seats, roster: Id, pool: set<Id>, x: Id, now: int, p: Id, q: Id)
    requires IsNext(seats, roster, pool, x) && Alike(pool, p, q) && Even(seats, roster, p, q)
    ensures Even(TakeSeat(seats, (roster, x), now), roster, p, q)
  {
    var after := TakeSeat(seats, (roster, x), now);
    if HasRoom(after, roster, p) && HasRoom(after, roster, q) {
      assert HasRoom(seats, roster, p) && HasRoom(seats, roster, q);
      assert x == p ==> Candidate(seats, roster, pool, q);
      assert x == q ==> Candidate(seats, roster, pool, p);
    }
  }

  /** Fairness of loads: however long the run and whatever its pools, two members that always pass the query's
      conditions together stay within one matter of each other while both can be assigned. */
  lemma {:induction false} LoadsStayEven(seats: Seats, roster: Id, run: seq<Turn>, p: Id, q: Id)
    requires Rotates(seats, roster, run) && AlikeThroughout(run, p, q) && Even(seats, roster, p, q)
    ensures Even(After(seats, roster, run), roster, p, q)
    decreases |run|
  {
    if run != [] {
      assert Alike(run[0].pool, p, q);
      AssigningKeepsEven(seats, roster, run[0].pool, run[0].provider, run[0].at, p, q);
      forall i | 0 <= i < |run[1..]|
        ensures Alike(run[1..][i].pool, p, q)
      {
        assert Alike(run[i + 1].pool, p, q);
      }
      LoadsStayEven(TakeSeat(seats, (roster, run[0].provider), run[0].at), roster, run[1..], p, q);
    }
  }

  /** The condition is exact, turn by turn: a pool keeps the two even from every state if and only if it holds both or
      neither. */
  lemma PoolKeepsEvenIff(roster: Id, pool: set<Id>, p: Id, q: Id)
    requires p != q
    ensures Alike(pool, p, q) <==>
            forall seats, x, now :: IsNext(seats, roster, pool, x) && Even(seats, roster, p, q) ==>
              Even(TakeSeat(seats, (roster, x), now), roster, p, q)
  {
    if Alike(pool, p, q) {
      forall seats, x, now | IsNext(seats, roster, pool, x) && Even(seats, roster, p, q)
        ensures Even(TakeSeat(seats, (roster, x), now), roster, p, q)
      {
        AssigningKeepsEven(seats, roster, pool, x, now, p, q);
      }
    } else {
      var x, y := if p in pool then p else q, if p in pool then q else p;
      var seats: Seats :=
        map[(roster, x) := Membership(true, false, 3, 1, None), (roster, y) := Membership(true, false, 3, 0, None)];
      assert IsNext(seats, roster, pool, x) && Even(seats, roster, p, q);
      assert !Even(TakeSeat(seats, (roster, x), 0), roster, p, q);
    }
  }

  function Alone(x: Id, n: nat): seq<Turn> {
    if n == 0 then [] else [Turn(x, 0, {x})] + Alone(x, n - 1)
  }

  /** And there is no bound without it: turns for which only x passes the conditions all go to x, however far the others
      fall behind. */
  lemma {:induction false} LoadsDriftApart(seats: Seats, roster: Id, x: Id, n: nat)
    requires HasRoom(seats, roster, x) && seats[(roster, x)].activeMatters + n <= seats[(roster, x)].capacity
    ensures Rotates(seats, roster, Alone(x, n))
    ensures var after := After(seats, roster, Alone(x, n));
            && after.Keys == seats.Keys && after[(roster, x)].activeMatters == seats[(roster, x)].activeMatters + n
            && forall seat :: seat in seats && seat != (roster, x) ==> after[seat] == seats[seat]
    decreases n
  {
    if n > 0 {
      var next := TakeSeat(seats, (roster, x), 0);
      assert Candidate(seats, roster, {x}, x);
      assert Alone(x, n)[0] == Turn(x, 0, {x}) && Alone(x, n)[1..] == Alone(x, n - 1);
      if n > 1 { LoadsDriftApart(next, roster, x, n - 1); } else { assert Alone(x, n - 1) == []; }
    }
  }

  // ---- Turns ----

  predicate Precedes(seats: Seats, roster: Id, p: Id, q: Id) {
    (roster, p) in seats && (roster, q) in seats && Compare(seats[(roster, p)], seats[(roster, q)]) < 0
  }

  predicate ServedIn(run: seq<Turn>, p: Id) {
    exists i :: 0 <= i < |run| && run[i].provider == p
  }

  lemma NotServedInTail(run: seq<Turn>, p: Id)
    requires run != [] && !ServedIn(run, p)
    ensures run[0].provider != p && !ServedIn(run[1..], p)
  {
    forall i | 0 <= i < |run[1..]|
      ensures run[1..][i].provider != p
    {
      assert run[i + 1].provider != p;
    }
  }

  /** Whoever is ahead of x stays ahead of x until served: nobody is overtaken while waiting, whatever the pools. */
  lemma {:induction false} WaitingStaysAhead(seats: Seats, roster: Id, run: seq<Turn>, y: Id, x: Id)
    requires Rotates(seats, roster, run) && Precedes(seats, roster, y, x) && !ServedIn(run, y)
    ensures Precedes(After(seats, roster, run), roster, y, x)
    ensures After(seats, roster, run)[(roster, y)] == seats[(roster, y)]
    decreases |run|
  {
    if run != [] {
      NotServedInTail(run, y);
      WaitingStaysAhead(TakeSeat(seats, (roster, run[0].provider), run[0].at), roster, run[1..], y, x);
    }
  }

  /** p was not assigned at or after `now`. */
  predicate LastBefore(seats: Seats, roster: Id, p: Id, now: int) {
    (roster, p) in seats && seats[(roster, p)].lastAssignedAt.Some? ==> seats[(roster, p)].lastAssignedAt.value < now
  }

  /** Round-robin: between two turns of one member, every member with room that passes the conditions at both turns is
      served, whatever the pools in between. */
  lemma EveryoneIsServedBetween(seats: Seats, roster: Id, run: seq<Turn>, again: Turn, y: Id)
    requires run != [] && run[0].provider == again.provider && y in run[0].pool && y in again.pool
    requires HasRoom(seats, roster, y) && Even(seats, roster, again.provider, y)
    requires LastBefore(seats, roster, y, run[0].at)
    requires Rotates(seats, roster, run) && IsNext(After(seats, roster, run), roster, again.pool, again.provider)
    ensures ServedIn(run, y)
  {
    var x := again.provider;
    if y == x {
      assert run[0].provider == y;
    } else if !ServedIn(run, y) {
      var next := TakeSeat(seats, (roster, x), run[0].at);
      assert Precedes(next, roster, y, x);
      NotServedInTail(run, y);
      WaitingStaysAhead(next, roster, run[1..], y, x);
      assert Candidate(After(seats, roster, run), roster, again.pool, y);
    }
  }

  function Providers(run: seq<Turn>): (s: set<Id>)
    ensures |s| <= |run|
    ensures forall p :: p in s <==> ServedIn(run, p)
  {
    if run == [] then {}
    else
      var s := Providers(run[..|run| - 1]);
      assert forall p :: ServedIn(run, p) <==> (ServedIn(run[..|run| - 1], p) || run[|run| - 1].provider == p) by {
        assert run == run[..|run| - 1] + [run[|run| - 1]];
      }
      s + {run[|run| - 1].provider}
  }

  /** Every one of `members` is in the roster and could still take on `more` matters. */
  predicate Roomy(seats: Seats, roster: Id, members: set<Id>, more: nat) {
    forall p :: p in members ==>
      (roster, p) in seats && seats[(roster, p)].available && !seats[(roster, p)].conflictBlocked &&
      seats[(roster, p)].activeMatters + more <= seats[(roster, p)].capacity
  }

  predicate AllEven(seats: Seats, roster: Id, members: set<Id>) {
    forall p, q :: p in members && q in members ==> Even(seats, roster, p, q)
  }

  predicate AllBefore(seats: Seats, roster: Id, members: set<Id>, now: int) {
    forall p :: p in members ==> LastBefore(seats, roster, p, now)
  }

  predicate TimesIncrease(run: seq<Turn>) {
    forall i, j :: 0 <= i < j < |run| ==> run[i].at < run[j].at
  }

  /** The conditions of every turn let all of `members` through. */
  predicate AlwaysIn(run: seq<Turn>, members: set<Id>) {
    forall i :: 0 <= i < |run| ==> members <= run[i].pool
  }

  /** So a member is served again only after as many turns as there are members that pass the conditions at both. */
  lemma TurnsAreFarApart(seats: Seats, roster: Id, members: set<Id>, run: seq<Turn>, again: Turn)
    requires run != [] && run[0].provider == again.provider && again.provider in members
    requires members <= run[0].pool && members <= again.pool
    requires AllEven(seats, roster, members) && AllBefore(seats, roster, members, run[0].at)
    requires Roomy(seats, roster, members, 1)
    requires Rotates(seats, roster, run) && IsNext(After(seats, roster, run), roster, again.pool, again.provider)
    ensures |run| >= |members|
  {
    forall y | y in members
      ensures y in Providers(run)
    {
      EveryoneIsServedBetween(seats, roster, run, again, y);
    }
    SubsetCardinality(members, Providers(run));
  }

  lemma {:induction false} PrefixRotates(seats: Seats, roster: Id, run: seq<Turn>, j: nat)
    requires Rotates(seats, roster, run) && j < |run|
    ensures Rotates(seats, roster, run[..j])
    ensures IsNext(After(seats, roster, run[..j]), roster, run[j].pool, run[j].provider)
    decreases j
  {
    if j > 0 {
      var next := TakeSeat(seats, (roster, run[0].provider), run[0].at);
      PrefixRotates(next, roster, run[1..], j - 1);
      assert run[..j][1..] == run[1..][..j - 1] && run[..j][0] == run[0];
    }
  }

  lemma AssigningKeepsAllEven(seats: Seats, roster: Id, members: set<Id>, turn: Turn)
    requires AllEven(seats, roster, members) && members <= turn.pool && IsNext(seats, roster, turn.pool, turn.provider)
    ensures AllEven(TakeSeat(seats, (roster, turn.provider), turn.at), roster, members)
  {
    forall p, q | p in members && q in members
      ensures Even(TakeSeat(seats, (roster, turn.provider), turn.at), roster, p, q)
    {
      AssigningKeepsEven(seats, roster, turn.pool, turn.provider, turn.at, p, q);
    }
  }

  /** Fairness of turns: two turns of one member are at least as far apart as there are members that pass the conditions
      throughout; fewer consecutive turns go to different ones. */
  lemma {:induction false} AnyWindowIsDistinct(seats: Seats, roster: Id, members: set<Id>, run: seq<Turn>, i: nat,
                                               j: nat)
    requires i < j < |run| && j - i < |members| && run[i].provider in members && AlwaysIn(run, members)
    requires AllEven(seats, roster, members) && AllBefore(seats, roster, members, run[0].at)
    requires TimesIncrease(run) && Roomy(seats, roster, members, |run|) && Rotates(seats, roster, run)
    ensures run[i].provider != run[j].provider
    decreases i
  {
    if i == 0 {
      PrefixRotates(seats, roster, run, j);
      if run[0].provider == run[j].provider { TurnsAreFarApart(seats, roster, members, run[..j], run[j]); }
    } else {
      var next := TakeSeat(seats, (roster, run[0].provider), run[0].at);
      AssigningKeepsAllEven(seats, roster, members, run[0]);
      AnyWindowIsDistinct(next, roster, members, run[1..], i - 1, j - 1);
    }
  }

  /** None of `members` has been assigned from this roster yet. */
  predicate FreshRoster(seats: Seats, roster: Id, members: set<Id>) {
    forall p :: p in members && (roster, p) in seats ==>
      seats[(roster, p)].activeMatters == 0 && seats[(roster, p)].lastAssignedAt.None?
  }
}
