/** Who waits for whom: when each event of the concurrent models takes effect, on the rows that the transactions in
    flight hold, and that a transaction sees what its own statements wrote. */
module LockColumns {
  import opened Sequences
  import opened SchedulingTables
  import opened BookingRoutes
  import opened Rotation
  import opened CareAllocation
  import Routes = ConcurrentBooking
  import Rotations = ConcurrentRotation
  import Both = ConcurrentScheduling
  import Directories = ConcurrentDirectory
  import Directory
  import DirectoryColumns

  // ---- Booking routes ----

  predicate Passes(t: Tables, route: Routes.Route, id: Id, now: int) {
    match route
    case Accept(user, _) => MayAnswer(t, user, id, now)
    case Decline(user, _) => MayAnswer(t, user, id, now)
    case Cancel(actor) => MayCancel(t, actor, id, now)
  }

  /** The generated key of a matter is new, among the rows and among those being inserted. */
  predicate NewKey(s: Routes.System, matter: Id) {
    && matter !in s.world.store.tables.matters
    && forall tx :: tx in s.flights && s.flights[tx].route.Accept? ==> s.flights[tx].route.matter != matter
  }

  /** A route gets under way exactly if its guards pass and nobody else has locked the booking; it has then read the
      booking's row and those behind it, and written nothing. */
  lemma RouteStartsIff(s: Routes.System, tx: nat, id: Id, route: Routes.Route, now: int)
    ensures var r := Routes.Apply(s, Routes.Lock(tx, id, route, now));
            var t := s.world.store.tables;
            r.world == s.world &&
            if tx !in s.flights && Passes(t, route, id, now) &&
               (forall other :: other in s.flights ==> s.flights[other].booking.id != id) &&
               (route.Accept? ==> NewKey(s, route.matter)) then
              var b := t.bookings[id];
              r.flights ==
              s.flights[tx := Routes.Flight(LockedBooking(id, Held, Assigned, b.provider, t.providers[b.provider],
                                                          b.allocation, t.needs[b.need],
                                                          t.allocations[b.allocation].roster),
                                            route, now, 0, Routes.Writes(None, None, None, None, None))]
            else r == s
  {
    match route
    case Accept(user, _) => GuardsPassIff(s.world.store.tables, user, Actor(0, Citizen, None, false), id, now);
    case Decline(user, _) => GuardsPassIff(s.world.store.tables, user, Actor(0, Citizen, None, false), id, now);
    case Cancel(actor) => GuardsPassIff(s.world.store.tables, 0, actor, id, now);
  }

  /** Two statements for an accept or for a booking without a roster, otherwise a third for the seat. */
  function HowMany(f: Routes.Flight): nat {
    if f.route.Accept? || f.booking.roster == None then 2 else 3
  }

  /** Some transaction has written this member's seat of the roster. */
  predicate SeatWritten(flights: map<nat, Routes.Flight>, roster: Id, provider: Id) {
    exists tx :: tx in flights && flights[tx].writes.seat != None && flights[tx].booking.roster == Some(roster) &&
                 flights[tx].booking.provider == provider
  }

  /** Seats are written only behind a roster. */
  predicate SeatsHaveRosters(flights: map<nat, Routes.Flight>) {
    forall tx :: tx in flights && flights[tx].writes.seat != None ==> flights[tx].booking.roster != None
  }

  lemma SeatWrittenIsHeld(flights: map<nat, Routes.Flight>, roster: Id, provider: Id)
    requires SeatsHaveRosters(flights)
    ensures SeatWritten(flights, roster, provider) <==> Routes.SeatHeld(flights, (roster, provider))
  {
    forall tx | tx in flights
      ensures Routes.Holds(flights[tx], (roster, provider)) <==>
              flights[tx].writes.seat != None && flights[tx].booking.roster == Some(roster) &&
              flights[tx].booking.provider == provider
    {
    }
  }

  lemma InvariantGivesRosters(s: Routes.System)
    requires Routes.Invariant(s)
    ensures SeatsHaveRosters(s.flights)
  {
    forall tx | tx in s.flights && s.flights[tx].writes.seat != None
      ensures s.flights[tx].booking.roster != None
    {
      assert Routes.FlightOk(s.world.store, s.flights[tx]);
    }
  }

  /** A statement that is due waits only for a seat that another transaction has written; otherwise it goes through, and
      the transaction keeps its row. */
  lemma StatementSentIff(s: Routes.System, tx: nat)
    requires Routes.Invariant(s) && tx in s.flights
    ensures var r, f := Routes.Apply(s, Routes.Statement(tx)), s.flights[tx];
            r.world == s.world &&
            if f.done < HowMany(f) &&
               !(f.done == 2 && SeatWritten(s.flights, f.booking.roster.value, f.booking.provider)) then
              && r.flights.Keys == s.flights.Keys && r.flights[tx].done == f.done + 1
              && r.flights[tx].booking == f.booking && r.flights[tx].route == f.route && r.flights[tx].now == f.now
              && (forall other :: other in s.flights && other != tx ==> r.flights[other] == s.flights[other])
            else r == s
  {
    var f := s.flights[tx];
    InvariantGivesRosters(s);
    if f.done == 2 && f.done < HowMany(f) {
      SeatWrittenIsHeld(s.flights, f.booking.roster.value, f.booking.provider);
    }
    if f.done < HowMany(f) {
      assert Routes.Send(Routes.Install(s.world.store, f), f).Ok? by { Routes.NoStatementFails(s, tx); }
      if !Routes.Blocked(s.flights, f) { SentAdvances(s, tx); }
    }
  }

  lemma SentAdvances(s: Routes.System, tx: nat)
    requires tx in s.flights && s.flights[tx].done < Routes.Statements(s.flights[tx])
    requires !Routes.Blocked(s.flights, s.flights[tx])
    requires Routes.Send(Routes.Install(s.world.store, s.flights[tx]), s.flights[tx]).Ok?
    ensures var r, f := Routes.Apply(s, Routes.Statement(tx)), s.flights[tx];
            && r.world == s.world && r.flights.Keys == s.flights.Keys && r.flights[tx].done == f.done + 1
            && r.flights[tx].booking == f.booking && r.flights[tx].route == f.route && r.flights[tx].now == f.now
            && (forall other :: other in s.flights && other != tx ==> r.flights[other] == s.flights[other])
  {
  }

  /** A transaction sees what its statements wrote: with its rows installed the store is what its last statement
      left. */
  lemma OwnRowsAreSeen(s: Store, f: Routes.Flight)
    requires Consistent(s) && Routes.FlightOk(s, f) && f.done < HowMany(f)
    ensures var sent := Routes.Send(Routes.Install(s, f), f);
            sent.Ok? && Routes.Install(s, Routes.Recorded(f, sent.value)) == sent.value
  {
    if f.route.Accept? {
      AcceptIsSeen(s, f);
    } else {
      ReleaseIsSeen(s, f);
    }
  }

  lemma AcceptIsSeen(s: Store, f: Routes.Flight)
    requires Consistent(s) && Routes.FlightOk(s, f) && f.route.Accept? && f.done < 2
    ensures var sent := Routes.Send(Routes.Install(s, f), f);
            sent.Ok? && Routes.Install(s, Routes.Recorded(f, sent.value)) == sent.value
  {
    Routes.AcceptAdvances(s, f);
    Routes.LockedIsHeld(s.tables, f);
  }

  lemma ReleaseIsSeen(s: Store, f: Routes.Flight)
    requires Consistent(s) && Routes.FlightOk(s, f) && !f.route.Accept? && f.done < HowMany(f)
    ensures var sent := Routes.Send(Routes.Install(s, f), f);
            sent.Ok? && Routes.Install(s, Routes.Recorded(f, sent.value)) == sent.value
  {
    Routes.ReleaseAdvances(s, f);
    Routes.LockedIsHeld(s.tables, f);
  }

  /** A transaction commits exactly when all its statements are sent; committed or aborted, it is gone, and no other. */
  lemma RouteEndsIff(s: Routes.System, tx: nat)
    ensures Routes.Apply(s, Routes.Abort(tx)) == Routes.System(s.world, s.flights - {tx})
    ensures var r := Routes.Apply(s, Routes.Commit(tx));
            if tx in s.flights && s.flights[tx].done == HowMany(s.flights[tx]) then
              && r.flights == s.flights - {tx} && r.world.decisions == s.world.decisions
              && r.world.surface == s.world.surface && r.world.quotes == s.world.quotes
            else r == s
  {
  }

  /** Some transaction has locked this booking. */
  predicate Locked(flights: map<nat, Routes.Flight>, id: Id) {
    exists tx :: tx in flights && flights[tx].booking.id == id
  }

  /** The seat behind the booking has been written by a transaction. */
  predicate BehindWrittenSeat(s: Routes.System, id: Id) {
    id in s.world.store.tables.bookings &&
    var t := s.world.store.tables;
    t.bookings[id].allocation in t.allocations &&
    var a := t.allocations[t.bookings[id].allocation];
    a.roster != None && SeatWritten(s.flights, a.roster.value, a.provider)
  }

  predicate MustWait(s: Routes.System, step: CareAllocation.Step) {
    match step
    case AcceptBooking(_, id, matter, _) =>
      Locked(s.flights, id) ||
      exists tx :: tx in s.flights && s.flights[tx].route.Accept? && s.flights[tx].route.matter == matter
    case DeclineBooking(_, id, _, _) => Locked(s.flights, id) || BehindWrittenSeat(s, id)
    case CancelBooking(_, id, _) => Locked(s.flights, id) || BehindWrittenSeat(s, id)
    case Book(_, booking) => exists tx :: tx in s.flights && s.flights[tx].booking.allocation == booking.allocation
    case CompleteAllocation(id, _) => exists tx :: tx in s.flights && s.flights[tx].booking.allocation == id
    case AdjustSeat(roster, provider, _, _, _) => SeatWritten(s.flights, roster, provider)
    case RotateNeed(_, roster, _, next, _, _, _) => SeatWritten(s.flights, roster, next)
    case _ => false
  }

  lemma SeatBehind(s: Routes.System, id: Id)
    requires SeatsHaveRosters(s.flights)
    ensures Routes.EndsOnHeldSeat(s, id) <==> BehindWrittenSeat(s, id)
  {
    var seat := SeatOfBooking(s.world, id);
    if seat.Some? { SeatWrittenIsHeld(s.flights, seat.value.0, seat.value.1); }
  }

  lemma StepWaitsIff(s: Routes.System, step: CareAllocation.Step)
    requires Routes.Invariant(s)
    ensures Routes.Waits(s, step) <==> MustWait(s, step)
  {
    InvariantGivesRosters(s);
    match step {
      case DeclineBooking(_, id, _, _) => SeatBehind(s, id);
      case CancelBooking(_, id, _) => SeatBehind(s, id);
      case AdjustSeat(roster, provider, _, _, _) => SeatWrittenIsHeld(s.flights, roster, provider);
      case RotateNeed(_, roster, _, next, _, _, _) => SeatWrittenIsHeld(s.flights, roster, next);
      case _ =>
    }
  }

  /** Everybody else waits for exactly these rows, and otherwise takes effect at once. */
  lemma OthersWaitIff(s: Routes.System, step: CareAllocation.Step)
    requires Routes.Invariant(s)
    ensures Routes.Apply(s, Routes.Other(step)) ==
            if MustWait(s, step) then s else Routes.System(CareAllocation.Apply(s.world, step), s.flights)
  {
    StepWaitsIff(s, step);
  }

  // ---- Rotations ----

  predicate NeedHeld(claims: map<nat, Rotations.Claim>, need: Id) {
    exists tx :: tx in claims && claims[tx].need == need
  }

  predicate ProviderHeld(claims: map<nat, Rotations.Claim>, provider: Id) {
    exists tx :: tx in claims && claims[tx].provider == Some(provider)
  }

  predicate MemberHeld(claims: map<nat, Rotations.Claim>, roster: Id, provider: Id) {
    exists tx :: tx in claims && claims[tx].provider == Some(provider) && claims[tx].roster == roster
  }

  predicate Inserting(claims: map<nat, Rotations.Claim>, id: Id) {
    exists tx :: tx in claims && claims[tx].written != None && claims[tx].written.value.id == id
  }

  /** A rotation starts on a need that is known, unlocked, and not paid unless an operator asks. */
  lemma RotationStartsIff(s: Rotations.System, tx: nat, need: Id, roster: Id, operator: bool)
    ensures Rotations.Apply(s, Rotations.Begin(tx, need, roster, operator)) ==
            if tx !in s.claims && !NeedHeld(s.claims, need) && need in s.world.store.tables.needs &&
               need in s.world.decisions && (s.world.decisions[need].route == Eligibility.Paid ==> operator) then
              Rotations.System(s.world, s.claims[tx := Rotations.Claim(need, roster, operator, None, None)])
            else s
  {
  }

  /** It locks a member of its roster that is available, unblocked and below capacity, and whose provider no other
      rotation has locked; a locked one is skipped. */
  lemma MemberLockedIff(s: Rotations.System, tx: nat, p: Id)
    requires tx in s.claims
    ensures var c := s.claims[tx];
            Rotations.Apply(s, Rotations.Lock(tx, p)) ==
            if c.provider == None && !ProviderHeld(s.claims, p) && (c.roster, p) in s.world.store.memberships &&
               s.world.store.memberships[(c.roster, p)].available &&
               !s.world.store.memberships[(c.roster, p)].conflictBlocked &&
               s.world.store.memberships[(c.roster, p)].activeMatters <
               s.world.store.memberships[(c.roster, p)].capacity then
              Rotations.System(s.world,
                               s.claims[tx := Rotations.Claim(c.need, c.roster, c.operator, Some(p), c.written)])
            else s
  {
  }

  /** Its two statements write the new allocation and the seat's next row, or one of them fails and the transaction is
      rolled back: exactly if the key is in use or the need already assigned. */
  lemma RotationWritesIff(s: Rotations.System, tx: nat, id: Id, now: int)
    requires Rotations.Invariant(s) && tx in s.claims && s.claims[tx].provider != None && s.claims[tx].written == None
    ensures var r, c, t := Rotations.Apply(s, Rotations.Write(tx, id, now)), s.claims[tx], s.world.store.tables;
            var seat := (c.roster, c.provider.value);
            if Inserting(s.claims, id) then r == s
            else if id in t.allocations ||
                    (exists a :: a in t.allocations && t.allocations[a].need == c.need &&
                                 t.allocations[a].status == Assigned) then
              r == Rotations.System(s.world, s.claims - {tx})
            else
              seat in s.world.store.memberships &&
              var m := s.world.store.memberships[seat];
              r == Rotations.System(s.world, s.claims[tx := c.(written := Some(Rotations.Written(
                id, now,
                Allocation(c.need, c.provider.value, AllocationMode.Rotation, Some(c.roster), None, None, Assigned,
                           None,
                           None),
                Membership(m.available, m.conflictBlocked, m.capacity, m.activeMatters + 1, Some(now)))))])
  {
    var c := s.claims[tx];
    assert Rotations.ClaimOk(s.world, c);
    Rotations.WritingSucceedsIff(s.world, c, id, now);
    if id !in s.world.store.tables.allocations { TakenNeed(s.world.store.tables.allocations, c.need, id); }
  }

  lemma TakenNeed(allocations: map<Id, Allocation>, need: Id, id: Id)
    requires id !in allocations
    ensures NeedTaken(allocations, need, id) <==>
            exists a :: a in allocations && allocations[a].need == need && allocations[a].status == Assigned
  {
    if a :| a in allocations && allocations[a].need == need && allocations[a].status == Assigned {
      assert a != id;
    }
  }

  lemma RotationEndsIff(s: Rotations.System, tx: nat)
    ensures Rotations.Apply(s, Rotations.Abort(tx)) == Rotations.System(s.world, s.claims - {tx})
    ensures var r := Rotations.Apply(s, Rotations.Commit(tx));
            if tx in s.claims && s.claims[tx].written != None then
              && r.claims == s.claims - {tx}
              && s.claims[tx].written.value.id in r.world.store.tables.allocations
              && r.world.store.tables.allocations[s.claims[tx].written.value.id] == s.claims[tx].written.value.row
            else r == s
  {
  }

  /** Nothing is locked or written twice, and a transaction that is not there does nothing. */
  lemma RotationIsIdleIf(s: Rotations.System, tx: nat, p: Id, id: Id, now: int)
    ensures tx !in s.claims ==> Rotations.Apply(s, Rotations.Lock(tx, p)) == s
    ensures tx !in s.claims || s.claims[tx].provider == None || s.claims[tx].written != None ==>
              Rotations.Apply(s, Rotations.Write(tx, id, now)) == s
  {
  }

  predicate MustWaitForRotation(s: Rotations.System, step: CareAllocation.Step) {
    match step
    case SelectProvider(need, provider, id, _) =>
      NeedHeld(s.claims, need) || ProviderHeld(s.claims, provider) || Inserting(s.claims, id)
    case AdjustSeat(roster, provider, _, _, _) => MemberHeld(s.claims, roster, provider)
    case DeclineBooking(_, id, _, _) => BehindHeldMember(s, id)
    case CancelBooking(_, id, _) => BehindHeldMember(s, id)
    case RotateNeed(_, _, _, _, _, _, _) => true
    case _ => false
  }

  predicate BehindHeldMember(s: Rotations.System, id: Id) {
    id in s.world.store.tables.bookings &&
    var t := s.world.store.tables;
    t.bookings[id].allocation in t.allocations &&
    var a := t.allocations[t.bookings[id].allocation];
    a.roster != None && MemberHeld(s.claims, a.roster.value, a.provider)
  }

  lemma RotationWaitsIff(s: Rotations.System, step: CareAllocation.Step)
    ensures Rotations.Waits(s, step) <==> MustWaitForRotation(s, step)
  {
  }

  /** Beside rotations everybody else waits for exactly these rows; whole rotations are claims here, not steps. */
  lemma OthersWaitForRotationIff(s: Rotations.System, step: CareAllocation.Step)
    ensures Rotations.Apply(s, Rotations.Other(step)) ==
            if MustWaitForRotation(s, step) then s else Rotations.System(CareAllocation.Apply(s.world, step), s.claims)
  {
  }

  // ---- Both at once ----

  /** A rotation skips a seat that a route has written, and otherwise does what it does alone. */
  lemma RotationSkipsIff(s: Both.System, e: Rotations.Event)
    requires Both.Invariant(s)
    ensures var skipped := e.Lock? && e.tx in s.claims && SeatWritten(s.flights, s.claims[e.tx].roster, e.provider);
            var alone := Rotations.Apply(Rotations.System(s.world, s.claims), e);
            Both.Apply(s, Both.Claiming(e)) ==
            if e.Other? || skipped then s else Both.System(alone.world, alone.claims, s.flights)
  {
    InvariantGivesRosters(Both.Flights(s));
    if e.Lock? && e.tx in s.claims { SeatWrittenIsHeld(s.flights, s.claims[e.tx].roster, e.provider); }
  }

  /** A route's third statement waits for a seat that a rotation has locked; otherwise a route does what it does
      alone. */
  lemma RouteWaitsIff(s: Both.System, e: Routes.Event)
    ensures var alone := Routes.Apply(Routes.System(s.world, s.flights), e);
            Both.Apply(s, Both.Flying(e)) ==
            if e.Other? || (e.Statement? && e.tx in s.flights && OnHeldMember(s, s.flights[e.tx])) then s
            else Both.System(alone.world, s.claims, alone.flights)
  {
  }

  predicate OnHeldMember(s: Both.System, f: Routes.Flight) {
    f.done == 2 && f.booking.roster != None && MemberHeld(s.claims, f.booking.roster.value, f.booking.provider)
  }

  /** Everybody else waits for the rows that either kind holds. */
  lemma OthersWaitForBothIff(s: Both.System, step: CareAllocation.Step)
    requires Both.Invariant(s)
    ensures Both.Apply(s, Both.Other(step)) ==
            if MustWait(Routes.System(s.world, s.flights), step) ||
               MustWaitForRotation(Rotations.System(s.world, s.claims), step) then s
            else Both.System(CareAllocation.Apply(s.world, step), s.claims, s.flights)
  {
    StepWaitsIff(Both.Flights(s), step);
    RotationWaitsIff(Both.Claims(s), step);
  }

  // ---- Directories ----

  /** A generation starts on a need that nobody has locked, without a directory, for its first or the same filters. */
  lemma GenerationStartsIff(s: Directories.System, tx: nat, rank: Id -> int, need: Id, filter: Directory.Filter,
                            cards: seq<Directory.Card>)
    ensures Directories.Apply(s, Directories.Begin(tx, rank, need, filter, cards)) ==
            if tx !in s.pending && (forall other :: other in s.pending ==> s.pending[other].need != need) &&
               need in s.db.needs && !s.db.needs[need].generated &&
               (s.db.needs[need].filter == None || s.db.needs[need].filter == Some(filter)) &&
               DirectoryColumns.OneRowEach(s.db.counters, cards) then
              Directories.System(s.db, s.pending[tx := Directories.Generation(
                need, filter, cards, Directory.Ordered(s.db, rank, cards), [], map[])])
            else s
  {
  }

  /** The next candidate's row and counter are written unless another transaction has written that counter: the row in
      its place with the count that was read at the start, the counter one more than what is committed. */
  lemma CandidatePlacedIff(s: Directories.System, tx: nat)
    requires Directories.Invariant(s) && tx in s.pending && |s.pending[tx].rows| < |s.pending[tx].ordered|
    ensures var r, g, k := Directories.Apply(s, Directories.Place(tx)), s.pending[tx], |s.pending[tx].rows|;
            var p := g.ordered[k].provider;
            if exists other :: other in s.pending && other != tx && p in s.pending[other].counts then r == s
            else
              && p in s.db.counters && Directory.FindCard(g.cards, p).Some?
              && r == Directories.System(s.db, s.pending[tx := Directories.Generation(
                   g.need, g.filter, g.cards, g.ordered,
                   g.rows + [Directory.SurfaceRow(g.need, p, k + 1, g.ordered[k].surfacedCount,
                                                  Directory.FindCard(g.cards, p).value, g.filter)],
                   g.counts[p := s.db.counters[p] + 1])])
  {
    var g := s.pending[tx];
    assert Directories.PendingOk(s.db, g);
    Directories.PlaceKeeps(s, tx);
    Directories.NextIsNew(s.db, g);
  }

  /** A transaction that is not there, or has placed everybody, places nobody; needs and providers are added beside. */
  lemma GenerationIsIdleIf(s: Directories.System, tx: nat, id: Id)
    ensures tx !in s.pending || |s.pending[tx].rows| >= |s.pending[tx].ordered| ==>
              Directories.Apply(s, Directories.Place(tx)) == s
    ensures Directories.Apply(s, Directories.AddNeed(id)) ==
            Directories.System(Directory.Apply(s.db, Directory.NewNeed(id)), s.pending)
    ensures Directories.Apply(s, Directories.AddProvider(id)) ==
            Directories.System(Directory.Apply(s.db, Directory.Register(id)), s.pending)
  {
  }

  /** It commits exactly when every candidate is placed: its rows behind those there, its counters in place of those
      there, its filters fixed; committed or aborted, it is gone, and no other. */
  lemma GenerationEndsIff(s: Directories.System, tx: nat)
    requires Directories.Invariant(s)
    ensures Directories.Apply(s, Directories.Abort(tx)) == Directories.System(s.db, s.pending - {tx})
    ensures var r := Directories.Apply(s, Directories.Finish(tx));
            if tx in s.pending && |s.pending[tx].rows| == |s.pending[tx].ordered| then
              var g := s.pending[tx];
              && r.pending == s.pending - {tx} && r.db.surface == s.db.surface + g.rows
              && r.db.needs == s.db.needs[g.need := Directory.NeedRow(Some(g.filter), true)]
              && r.db.counters.Keys == s.db.counters.Keys
              && (forall p :: p in s.db.counters ==>
                    r.db.counters[p] == if p in g.counts then g.counts[p] else s.db.counters[p])
            else r == s
  {
    if tx in s.pending && |s.pending[tx].rows| == |s.pending[tx].ordered| {
      assert Directories.PendingOk(s.db, s.pending[tx]);
      Directories.FinishKeeps(s, tx);
    }
  }
}
