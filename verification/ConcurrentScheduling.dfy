/** Rotations and the booking routes at the same time, statement by statement, on the same seats: a rotation skips a
    seat that a release has written, and a release waits for a seat that a rotation has claimed. */
module ConcurrentScheduling {
  import opened Sequences
  import opened SchedulingTables
  import opened BookingRoutes
  import opened CareAllocation
  import Rotations = ConcurrentRotation
  import Routes = ConcurrentBooking

  datatype System = System(world: World, claims: map<nat, Rotations.Claim>, flights: map<nat, Routes.Flight>)

  datatype Event =
    | Claiming(claiming: Rotations.Event)
    | Flying(flying: Routes.Event)
    | Other(step: CareAllocation.Step)

  function Claims(s: System): Rotations.System {
    Rotations.System(s.world, s.claims)
  }

  function Flights(s: System): Routes.System {
    Routes.System(s.world, s.flights)
  }

  /** The query passes over a seat that a release has written. */
  predicate Skips(s: System, e: Rotations.Event) {
    e.Lock? && e.tx in s.claims && Routes.SeatHeld(s.flights, (s.claims[e.tx].roster, e.provider))
  }

  /** The third statement waits for a seat that a rotation has claimed. */
  predicate Blocked(s: System, f: Routes.Flight) {
    f.done == 2 && Rotations.SeatLocked(s.claims, Routes.SeatOf(f.booking))
  }

  function Apply(s: System, e: Event): System {
    match e
    case Claiming(c) =>
      if c.Other? || Skips(s, c) then s
      else
        var after := Rotations.Apply(Claims(s), c);
        s.(world := after.world, claims := after.claims)
    case Flying(f) =>
      if f.Other? || (f.Statement? && f.tx in s.flights && Blocked(s, s.flights[f.tx])) then s
      else
        var after := Routes.Apply(Flights(s), f);
        s.(world := after.world, flights := after.flights)
    case Other(step) =>
      if Rotations.Waits(Claims(s), step) || Routes.Waits(Flights(s), step) then s
      else s.(world := CareAllocation.Apply(s.world, step))
  }

  function Run(s: System, events: seq<Event>): System
    decreases |events|
  {
    if events == [] then s else Run(Apply(s, events[0]), events[1..])
  }

  const START := System(EMPTY_WORLD, map[], map[])

  // ---- The invariant ----

  /** The claim does not hold the seat that the flight holds. */
  predicate SeatApart(c: Rotations.Claim, f: Routes.Flight) {
    c.provider.Some? ==> !Routes.Holds(f, (c.roster, c.provider.value))
  }

  predicate SeatsApart(claims: map<nat, Rotations.Claim>, flights: map<nat, Routes.Flight>) {
    forall x, y :: x in claims && y in flights ==> SeatApart(claims[x], flights[y])
  }

  predicate Invariant(s: System) {
    Rotations.Invariant(Claims(s)) && Routes.Invariant(Flights(s)) && SeatsApart(s.claims, s.flights)
  }

  // ---- A commit of one kind is a step that the other kind does not have to wait for ----

  predicate ClaimCommits(s: System, tx: nat) {
    tx in s.claims && s.claims[tx].written.Some?
  }

  predicate FlightCommits(s: System, tx: nat) {
    tx in s.flights && s.flights[tx].done == Routes.Statements(s.flights[tx])
  }

  lemma ClaimIsWritten(s: System, tx: nat)
    requires Rotations.Invariant(Claims(s)) && ClaimCommits(s, tx)
    ensures s.claims[tx].provider.Some?
  {
    assert Rotations.ClaimOk(s.world, s.claims[tx]);
  }

  lemma RotationIsFree(s: System, tx: nat)
    requires Invariant(s) && ClaimCommits(s, tx)
    ensures s.claims[tx].provider.Some? && !Routes.Waits(Flights(s), Rotations.StepOf(s.claims[tx]))
  {
    ClaimIsWritten(s, tx);
    var c := s.claims[tx];
    forall y | y in s.flights
      ensures !Routes.Holds(s.flights[y], (c.roster, c.provider.value))
    {
      assert SeatApart(c, s.flights[y]);
    }
  }

  lemma ReleaseIsFree(s: System, tx: nat)
    requires Invariant(s) && FlightCommits(s, tx)
    ensures !Rotations.Waits(Claims(s), Routes.StepOf(s.flights[tx]))
  {
    var f := s.flights[tx];
    assert Routes.FlightOk(s.world.store, f);
    var seat := SeatOfBooking(s.world, f.booking.id);
    if !f.route.Accept? && seat.Some? {
      Routes.OwnSeatIsHeld(s.world, f, seat.value);
      forall x | x in s.claims
        ensures !(s.claims[x].provider == Some(seat.value.1) && s.claims[x].roster == seat.value.0)
      {
        assert SeatApart(s.claims[x], f);
      }
    }
  }

  // ---- Every event keeps it ----

  lemma OtherKeeps(s: System, step: CareAllocation.Step)
    requires Invariant(s) && !Rotations.Waits(Claims(s), step) && !Routes.Waits(Flights(s), step)
    ensures Invariant(s.(world := CareAllocation.Apply(s.world, step)))
  {
    Rotations.OtherKeeps(Claims(s), step);
    Routes.OtherKeeps(Flights(s), step);
  }

  lemma ClaimCommitIsItsStep(s: System, tx: nat)
    requires Invariant(s) && ClaimCommits(s, tx)
    ensures s.claims[tx].provider.Some?
    ensures Apply(s, Claiming(Rotations.Commit(tx))) ==
            System(CareAllocation.Apply(s.world, Rotations.StepOf(s.claims[tx])), s.claims - {tx}, s.flights)
  {
    Rotations.CommitIsItsStep(Claims(s), tx);
  }

  lemma FlightCommitIsItsStep(s: System, tx: nat)
    requires Invariant(s) && FlightCommits(s, tx)
    ensures Apply(s, Flying(Routes.Commit(tx))) ==
            System(CareAllocation.Apply(s.world, Routes.StepOf(s.flights[tx])), s.claims, s.flights - {tx})
  {
    Routes.CommitIsItsStep(Flights(s), tx);
  }

  lemma ClaimCommitKeeps(s: System, tx: nat)
    requires Invariant(s) && ClaimCommits(s, tx)
    ensures Invariant(Apply(s, Claiming(Rotations.Commit(tx))))
  {
    Rotations.CommitKeeps(Claims(s), tx);
    ClaimCommitIsItsStep(s, tx);
    RotationIsFree(s, tx);
    Routes.OtherKeeps(Flights(s), Rotations.StepOf(s.claims[tx]));
  }

  lemma FlightCommitKeeps(s: System, tx: nat)
    requires Invariant(s) && FlightCommits(s, tx)
    ensures Invariant(Apply(s, Flying(Routes.Commit(tx))))
  {
    Routes.CommitKeeps(Flights(s), tx);
    FlightCommitIsItsStep(s, tx);
    ReleaseIsFree(s, tx);
    Rotations.OtherKeeps(Claims(s), Routes.StepOf(s.flights[tx]));
  }

  /** Everything but a commit leaves the tables alone. */
  lemma ClaimingLeavesWorld(s: Rotations.System, e: Rotations.Event)
    requires !e.Other? && !(e.Commit? && e.tx in s.claims && s.claims[e.tx].written.Some?)
    ensures Rotations.Apply(s, e).world == s.world
  {
  }

  lemma FlyingLeavesWorld(s: Routes.System, e: Routes.Event)
    requires !e.Other?
    requires !(e.Commit? && e.tx in s.flights && s.flights[e.tx].done == Routes.Statements(s.flights[e.tx]))
    ensures Routes.Apply(s, e).world == s.world
  {
  }

  lemma ClaimingStaysApart(s: System, e: Rotations.Event)
    requires SeatsApart(s.claims, s.flights) && !e.Other? && !Skips(s, e)
    ensures SeatsApart(Rotations.Apply(Claims(s), e).claims, s.flights)
  {
    var after := Rotations.Apply(Claims(s), e).claims;
    forall x, y | x in after && y in s.flights
      ensures SeatApart(after[x], s.flights[y])
    {
      if x in s.claims { assert SeatApart(s.claims[x], s.flights[y]); }
    }
  }

  lemma FlyingStaysApart(s: System, e: Routes.Event)
    requires SeatsApart(s.claims, s.flights) && Routes.FlightsOk(s.world.store, s.flights) && !e.Other?
    requires e.Statement? && e.tx in s.flights ==> !Blocked(s, s.flights[e.tx])
    ensures SeatsApart(s.claims, Routes.Apply(Flights(s), e).flights)
  {
    var after := Routes.Apply(Flights(s), e).flights;
    forall x, y | x in s.claims && y in after
      ensures SeatApart(s.claims[x], after[y])
    {
      if y in s.flights { assert SeatApart(s.claims[x], s.flights[y]) && Routes.FlightOk(s.world.store, s.flights[y]); }
    }
  }

  lemma ClaimingKeeps(s: System, e: Rotations.Event)
    requires Invariant(s)
    ensures Invariant(Apply(s, Claiming(e)))
  {
    if !e.Other? && !Skips(s, e) {
      if e.Commit? && ClaimCommits(s, e.tx) {
        ClaimCommitKeeps(s, e.tx);
      } else {
        Rotations.EventKeeps(Claims(s), e);
        ClaimingLeavesWorld(Claims(s), e);
        ClaimingStaysApart(s, e);
      }
    }
  }

  lemma FlyingKeeps(s: System, e: Routes.Event)
    requires Invariant(s)
    ensures Invariant(Apply(s, Flying(e)))
  {
    if !e.Other? && !(e.Statement? && e.tx in s.flights && Blocked(s, s.flights[e.tx])) {
      if e.Commit? && FlightCommits(s, e.tx) {
        FlightCommitKeeps(s, e.tx);
      } else {
        Routes.EventKeeps(Flights(s), e);
        FlyingLeavesWorld(Flights(s), e);
        FlyingStaysApart(s, e);
      }
    }
  }

  lemma EventKeeps(s: System, e: Event)
    requires Invariant(s)
    ensures Invariant(Apply(s, e))
  {
    match e {
      case Claiming(c) => ClaimingKeeps(s, c);
      case Flying(f) => FlyingKeeps(s, f);
      case Other(step) =>
        if !Rotations.Waits(Claims(s), step) && !Routes.Waits(Flights(s), step) { OtherKeeps(s, step); }
    }
  }

  lemma {:induction false} RunKeeps(s: System, events: seq<Event>)
    requires Invariant(s)
    ensures Invariant(Run(s, events))
    decreases |events|
  {
    if events != [] {
      EventKeeps(s, events[0]);
      RunKeeps(Apply(s, events[0]), events[1..]);
    }
  }

  lemma StartIsValid()
    ensures Invariant(START)
  {
    EmptyWorldIsValid();
  }

  // ---- Results ----

  /** Over every interleaving of rotations and releases on the same seats: every counter is exact and within capacity,
      no need has two assigned allocations, and no seat is claimed by a rotation and written by a release at once. */
  lemma EveryInterleavingIsSafe(events: seq<Event>)
    ensures var s := Run(START, events);
            && Conserved(s.world.store.tables.allocations, s.world.store.memberships)
            && OneActivePerNeed(s.world.store.tables.allocations)
            && SeatsApart(s.claims, s.flights)
  {
    StartIsValid();
    RunKeeps(START, events);
  }

  /** The steps of a run in the order in which they were committed. */
  function Serial(s: System, events: seq<Event>): seq<CareAllocation.Step>
    decreases |events|
  {
    if events == [] then [] else Committed(s, events[0]) + Serial(Apply(s, events[0]), events[1..])
  }

  function Committed(s: System, e: Event): seq<CareAllocation.Step> {
    match e
    case Claiming(c) =>
      if c.Commit? && ClaimCommits(s, c.tx) && s.claims[c.tx].provider.Some? then [Rotations.StepOf(s.claims[c.tx])]
      else []
    case Flying(f) => if f.Commit? && FlightCommits(s, f.tx) then [Routes.StepOf(s.flights[f.tx])] else []
    case Other(step) => if Rotations.Waits(Claims(s), step) || Routes.Waits(Flights(s), step) then [] else [step]
  }

  /** An event either leaves the tables alone or takes the one step it commits. */
  lemma EventIsItsSteps(s: System, e: Event)
    requires Invariant(s)
    ensures Apply(s, e).world == CareAllocation.Run(s.world, Committed(s, e))
  {
    match e {
      case Claiming(c) =>
        if c.Commit? && ClaimCommits(s, c.tx) {
          ClaimCommitIsItsStep(s, c.tx);
        } else if !c.Other? {
          ClaimingLeavesWorld(Claims(s), c);
        }
      case Flying(f) =>
        if f.Commit? && FlightCommits(s, f.tx) {
          FlightCommitIsItsStep(s, f.tx);
        } else if !f.Other? {
          FlyingLeavesWorld(Flights(s), f);
        }
      case Other(_) =>
    }
    if Committed(s, e) != [] { RunOfOne(s.world, Committed(s, e)[0]); }
  }

  lemma RunOfOne(w: World, step: CareAllocation.Step)
    ensures CareAllocation.Run(w, [step]) == CareAllocation.Apply(w, step)
  {
    assert [step][1..] == [] && CareAllocation.Run(CareAllocation.Apply(w, step), []) == CareAllocation.Apply(w, step);
  }

  lemma {:induction false} RunConcat(w: World, a: seq<CareAllocation.Step>, b: seq<CareAllocation.Step>)
    ensures CareAllocation.Run(w, a + b) == CareAllocation.Run(CareAllocation.Run(w, a), b)
    decreases |a|
  {
    if a == [] {
      assert a + b == b;
    } else {
      assert (a + b)[0] == a[0] && (a + b)[1..] == a[1..] + b;
      RunConcat(CareAllocation.Apply(w, a[0]), a[1..], b);
    }
  }

  /** Serializability of both kinds together: installing the rows that interleaved rotations, accepts, declines and
      cancels wrote leaves what the whole transactions leave, one after the other in the order of their commits. */
  lemma {:induction false} InterleavingsAreSerial(s: System, events: seq<Event>)
    requires Invariant(s)
    ensures Run(s, events).world == CareAllocation.Run(s.world, Serial(s, events))
    decreases |events|
  {
    if events != [] {
      EventKeeps(s, events[0]);
      EventIsItsSteps(s, events[0]);
      InterleavingsAreSerial(Apply(s, events[0]), events[1..]);
      RunConcat(s.world, Committed(s, events[0]), Serial(Apply(s, events[0]), events[1..]));
    }
  }
}
