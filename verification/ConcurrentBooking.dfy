/** Accept, decline and cancel as concurrent transactions that send their statements one at a time, under row
    locks. Each statement computes its row from what is committed when it is sent; a commit installs the rows
    computed by then. */
module ConcurrentBooking {
  import opened Sequences
  import opened SchedulingTables
  import opened BookingRoutes
  import opened CareAllocation

  /** What was asked for; an accepted booking's matter gets a generated key. */
  datatype Route = Accept(user: Id, matter: Id) | Decline(user: Id, reason: string) | Cancel(actor: Actor)

  /** The uncommitted row versions of a transaction. */
  datatype Writes = Writes(booking: Option<Booking>, matter: Option<Matter>, allocation: Option<Allocation>,
                           seat: Option<Membership>, signal: Option<string>)

  const NOTHING := Writes(None, None, None, None, None)

  /** A transaction past its guards: what it read when it locked booking and allocation, its now(), how many of its
      statements it has sent, and the rows they wrote. */
  datatype Flight = Flight(booking: LockedBooking, route: Route, now: int, done: nat, writes: Writes)

  datatype System = System(world: World, flights: map<nat, Flight>)

  datatype Event =
    | Lock(tx: nat, id: Id, route: Route, now: int)
    | Statement(tx: nat)
    | Commit(tx: nat)
    | Abort(tx: nat)
    | Other(step: CareAllocation.Step)

  // ---- The statements ----

  function RefusalOf(t: Tables, route: Route, id: Id, now: int): Option<AppError> {
    match route
    case Accept(user, _) => ProviderRefusal(t, user, id, now)
    case Decline(user, _) => ProviderRefusal(t, user, id, now)
    case Cancel(actor) => CancelRefusal(t, actor, id, now)
  }

  function NextStatus(route: Route): BookingStatus {
    match route
    case Accept(_, _) => Confirmed
    case Decline(_, _) => BookingDeclined
    case Cancel(_) => BookingCancelled
  }

  function Ending(route: Route): AllocationStatus {
    if route.Decline? then Declined else Cancelled
  }

  function ReasonOf(route: Route): Option<string> {
    if route.Decline? then Some(route.reason) else None
  }

  /** The booking, then the matter or the allocation, then the seat of a rotation and its signal. */
  function Statements(f: Flight): nat {
    if f.route.Accept? || f.booking.roster.None? then 2 else 3
  }

  function SendFirst(s: Store, f: Flight): Result<Store, AppError> {
    var t :- TransitionLockedBooking(s.tables, f.booking, NextStatus(f.route), f.now);
    Ok(s.(tables := t))
  }

  function SendSecond(s: Store, f: Flight): Result<Store, AppError> {
    var t :- if f.route.Accept? then OpenMatter(s.tables, f.booking, f.route.matter, f.now)
             else ReleaseAllocation(s.tables, f.booking.allocation, Ending(f.route), ReasonOf(f.route), f.now);
    Ok(s.(tables := t))
  }

  function SendThird(s: Store, f: Flight): Result<Store, AppError> {
    if f.booking.roster.None? then Ok(s)
    else
      var seats :- ReleaseSeat(s.memberships, (f.booking.roster.value, f.booking.provider));
      var signals := if f.route.Decline? then s.signals + [(f.booking.provider, f.route.reason)] else s.signals;
      Ok(s.(memberships := seats, signals := signals))
  }

  function SeatOf(booking: LockedBooking): Seat {
    (if booking.roster.Some? then booking.roster.value else 0, booking.provider)
  }

  /** A store with the transaction's own rows: what it sees, and what its commit leaves. */
  function Install(s: Store, f: Flight): Store {
    var t := s.tables.(bookings := Put(s.tables.bookings, f.booking.id, f.writes.booking),
                       allocations := Put(s.tables.allocations, f.booking.allocation, f.writes.allocation),
                       matters := if f.route.Accept? then Put(s.tables.matters, f.route.matter, f.writes.matter)
                                  else s.tables.matters);
    var signals := if f.writes.signal.Some? then s.signals + [(f.booking.provider, f.writes.signal.value)]
                   else s.signals;
    Store(t, Put(s.memberships, SeatOf(f.booking), f.writes.seat), signals)
  }

  /** The next statement. */
  function Send(view: Store, f: Flight): Result<Store, AppError> {
    if f.done == 0 then SendFirst(view, f) else if f.done == 1 then SendSecond(view, f) else SendThird(view, f)
  }

  /** The transaction keeps the row that its statement has written. */
  function Recorded(f: Flight, after: Store): Flight {
    var w := f.writes;
    var writes :=
      if f.done == 0 then w.(booking := RowAt(after.tables.bookings, f.booking.id))
      else if f.done == 1 && f.route.Accept? then w.(matter := RowAt(after.tables.matters, f.route.matter))
      else if f.done == 1 then w.(allocation := RowAt(after.tables.allocations, f.booking.allocation))
      else w.(seat := RowAt(after.memberships, SeatOf(f.booking)), signal := ReasonOf(f.route));
    f.(done := f.done + 1, writes := writes)
  }

  // ---- Locks and events ----

  predicate BookingLocked(flights: map<nat, Flight>, id: Id) {
    exists tx :: tx in flights && flights[tx].booking.id == id
  }

  predicate AllocationLocked(flights: map<nat, Flight>, allocation: Id) {
    exists tx :: tx in flights && flights[tx].booking.allocation == allocation
  }

  /** Generated keys differ. */
  predicate KeyInUse(s: System, route: Route) {
    route.Accept? && (route.matter in s.world.store.tables.matters || KeyPending(s.flights, route.matter))
  }

  predicate KeyPending(flights: map<nat, Flight>, matter: Id) {
    exists tx :: tx in flights && flights[tx].route.Accept? && flights[tx].route.matter == matter
  }

  /** The seat's row is locked from the third statement on. */
  predicate SeatHeld(flights: map<nat, Flight>, seat: Seat) {
    exists tx :: tx in flights && Holds(flights[tx], seat)
  }

  predicate Holds(f: Flight, seat: Seat) {
    f.writes.seat.Some? && SeatOf(f.booking) == seat
  }

  predicate EndsOnHeldSeat(s: System, id: Id) {
    SeatOfBooking(s.world, id).Some? && SeatHeld(s.flights, SeatOfBooking(s.world, id).value)
  }

  /** The step would wait for a locked booking, allocation or seat, or insert under a key that is being inserted; a
      rotation skips a locked seat. */
  predicate Waits(s: System, step: CareAllocation.Step) {
    match step
    case AcceptBooking(_, id, matter, _) => BookingLocked(s.flights, id) || KeyPending(s.flights, matter)
    case DeclineBooking(_, id, _, _) => BookingLocked(s.flights, id) || EndsOnHeldSeat(s, id)
    case CancelBooking(_, id, _) => BookingLocked(s.flights, id) || EndsOnHeldSeat(s, id)
    case Book(_, booking) => AllocationLocked(s.flights, booking.allocation)
    case CompleteAllocation(id, _) => AllocationLocked(s.flights, id)
    case AdjustSeat(roster, provider, _, _, _) => SeatHeld(s.flights, (roster, provider))
    case RotateNeed(_, roster, _, next, _, _, _) => SeatHeld(s.flights, (roster, next))
    case _ => false
  }

  /** Another transaction holds the seat that the next statement writes. */
  predicate Blocked(flights: map<nat, Flight>, f: Flight) {
    f.done == 2 && SeatHeld(flights, SeatOf(f.booking))
  }

  /** The next statement on what is committed now: its row is kept, or it fails and the transaction is rolled back. */
  function AfterStatement(s: Store, flights: map<nat, Flight>, tx: nat): map<nat, Flight>
    requires tx in flights
  {
    var f := flights[tx];
    var sent := Send(Install(s, f), f);
    if sent.Err? then flights - {tx} else flights[tx := Recorded(f, sent.value)]
  }

  /** A refused lock request answers its error and is gone. */
  function Apply(s: System, e: Event): System {
    match e
    case Lock(tx, id, route, now) =>
      var booking := LockBooking(s.world.store.tables, id);
      if tx in s.flights || booking.None? || BookingLocked(s.flights, id) || KeyInUse(s, route) ||
         RefusalOf(s.world.store.tables, route, id, now).Some? then s
      else s.(flights := s.flights[tx := Flight(booking.value, route, now, 0, NOTHING)])
    case Statement(tx) =>
      if tx !in s.flights || s.flights[tx].done >= Statements(s.flights[tx]) || Blocked(s.flights, s.flights[tx]) then s
      else s.(flights := AfterStatement(s.world.store, s.flights, tx))
    case Commit(tx) =>
      if tx !in s.flights || s.flights[tx].done != Statements(s.flights[tx]) then s
      else System(s.world.(store := Install(s.world.store, s.flights[tx])), s.flights - {tx})
    case Abort(tx) => s.(flights := s.flights - {tx})
    case Other(step) => if Waits(s, step) then s else s.(world := CareAllocation.Apply(s.world, step))
  }

  function Run(s: System, events: seq<Event>): System
    decreases |events|
  {
    if events == [] then s else Run(Apply(s, events[0]), events[1..])
  }

  const START := System(EMPTY_WORLD, map[])

  // ---- The invariant: the guards are still true, and every stored row is what its statement would write now ----

  function Expected(s: Store, f: Flight): Writes {
    var t, b, seat := s.tables, f.booking, SeatOf(f.booking);
    Writes(
      if f.done >= 1 && b.id in t.bookings then
        Some(t.bookings[b.id].(status := NextStatus(f.route), updatedAt := f.now))
      else None,
      if f.done >= 2 && f.route.Accept? then Some(Matter(b.allocation, b.provider, b.citizen, Open, f.now, None, None))
      else None,
      if f.done >= 2 && !f.route.Accept? && b.allocation in t.allocations then
        Some(Released(t.allocations[b.allocation], Ending(f.route), ReasonOf(f.route), f.now))
      else None,
      if f.done >= 3 && seat in s.memberships then Some(Freed(s.memberships[seat])) else None,
      if f.done >= 3 then ReasonOf(f.route) else None
    )
  }

  predicate GuardsHold(t: Tables, f: Flight) {
    && LockBooking(t, f.booking.id) == Some(f.booking)
    && RefusalOf(t, f.route, f.booking.id, f.now).None?
    && (f.route.Accept? ==> f.route.matter !in t.matters)
    && f.done <= Statements(f)
  }

  predicate FlightOk(s: Store, f: Flight) {
    GuardsHold(s.tables, f) && f.writes == Expected(s, f)
  }

  predicate FlightsOk(s: Store, flights: map<nat, Flight>) {
    forall tx :: tx in flights ==> FlightOk(s, flights[tx])
  }

  predicate Separate(f: Flight, g: Flight) {
    && f.booking.id != g.booking.id
    && (f.route.Accept? && g.route.Accept? ==> f.route.matter != g.route.matter)
    && (f.writes.seat.Some? && g.writes.seat.Some? ==> SeatOf(f.booking) != SeatOf(g.booking))
  }

  predicate Apart(flights: map<nat, Flight>) {
    forall x, y :: x in flights && y in flights && x != y ==> Separate(flights[x], flights[y])
  }

  predicate Invariant(s: System) {
    Valid(s.world) && FlightsOk(s.world.store, s.flights) && Apart(s.flights)
  }

  // ---- No statement fails ----

  /** The same transaction as one step. */
  function StepOf(f: Flight): CareAllocation.Step {
    match f.route
    case Accept(user, matter) => AcceptBooking(user, f.booking.id, matter, f.now)
    case Decline(user, reason) => DeclineBooking(user, f.booking.id, reason, f.now)
    case Cancel(actor) => CancelBooking(actor, f.booking.id, f.now)
  }

  lemma LockedIsHeld(t: Tables, f: Flight)
    requires Sound(t) && GuardsHold(t, f)
    ensures f.booking.id in t.bookings
    ensures var b := t.bookings[f.booking.id];
            && b.status == Held == f.booking.status && f.now >= b.updatedAt
            && b.allocation == f.booking.allocation && b.provider == f.booking.provider
            && b.citizen == f.booking.citizen
            && b.allocation in t.allocations && b.provider in t.providers && b.need in t.needs
            && t.allocations[b.allocation].roster == f.booking.roster
            && t.allocations[b.allocation].provider == b.provider
  {
    LockFinds(t, f.booking.id);
  }

  lemma AcceptAdvances(s: Store, f: Flight)
    requires Consistent(s) && FlightOk(s, f) && f.route.Accept? && f.done < 2
    ensures Send(Install(s, f), f).Ok? && FlightOk(s, Recorded(f, Send(Install(s, f), f).value))
  {
    LockedIsHeld(s.tables, f);
    AcceptSucceeds(s, f.booking.id, f.route.matter, f.now);
    if f.done == 0 {
      assert Install(s, f) == s;
    } else {
      assert Install(s, f) == s.(tables := WithBooking(s.tables, f.booking.id, Confirmed, f.now));
    }
  }

  lemma ReleaseAdvances(s: Store, f: Flight)
    requires Consistent(s) && FlightOk(s, f) && !f.route.Accept? && f.done < Statements(f)
    ensures Send(Install(s, f), f).Ok? && FlightOk(s, Recorded(f, Send(Install(s, f), f).value))
  {
    var id := f.booking.id;
    LockedIsHeld(s.tables, f);
    ReleaseSucceeds(s, id, NextStatus(f.route), Ending(f.route), ReasonOf(f.route), f.now);
    if f.done == 0 {
      assert Install(s, f) == s;
    } else if f.done == 1 {
      assert Install(s, f) == s.(tables := WithBooking(s.tables, id, NextStatus(f.route), f.now));
    } else {
      var after := AfterRelease(s, id, NextStatus(f.route), Ending(f.route), ReasonOf(f.route), f.now);
      assert Install(s, f) == s.(tables := after.tables);
    }
  }

  /** No half failure: whatever has been committed since the guards passed, the next statement finds its one row and is
      accepted. */
  lemma NoStatementFails(s: System, tx: nat)
    requires Invariant(s) && tx in s.flights && s.flights[tx].done < Statements(s.flights[tx])
    ensures var f := s.flights[tx];
            var sent := Send(Install(s.world.store, f), f);
            sent.Ok? && FlightOk(s.world.store, Recorded(f, sent.value))
  {
    var f := s.flights[tx];
    assert FlightOk(s.world.store, f);
    if f.route.Accept? { AcceptAdvances(s.world.store, f); } else { ReleaseAdvances(s.world.store, f); }
  }

  lemma AcceptInstalls(w: World, f: Flight)
    requires Valid(w) && FlightOk(w.store, f) && f.route.Accept? && f.done == 2
    ensures w.(store := Install(w.store, f)) == CareAllocation.Apply(w, StepOf(f))
  {
    LockedIsHeld(w.store.tables, f);
    assert Install(w.store, f) == AfterAccept(w.store, f.booking.id, f.route.matter, f.now);
  }

  lemma ReleasedIsEnded(w: World, f: Flight)
    requires GuardsHold(w.store.tables, f) && !f.route.Accept?
    ensures CareAllocation.Apply(w, StepOf(f)) ==
            Ended(w, f.booking.id, NextStatus(f.route), Ending(f.route), ReasonOf(f.route), f.now)
  {
  }

  lemma ReleaseInstalls(w: World, f: Flight)
    requires Valid(w) && FlightOk(w.store, f) && !f.route.Accept? && f.done == Statements(f)
    ensures w.(store := Install(w.store, f)) == CareAllocation.Apply(w, StepOf(f))
  {
    var s, id := w.store, f.booking.id;
    LockedIsHeld(s.tables, f);
    ReleasedIsEnded(w, f);
    var after := AfterRelease(s, id, NextStatus(f.route), Ending(f.route), ReasonOf(f.route), f.now);
    assert Install(s, f).tables == after.tables;
    assert Install(s, f).memberships == after.memberships;
  }

  /** And the rows it wrote, installed, are the one step its route stands for, taken when it commits. */
  lemma InstallingIsTheStep(w: World, f: Flight)
    requires Valid(w) && FlightOk(w.store, f) && f.done == Statements(f)
    ensures w.(store := Install(w.store, f)) == CareAllocation.Apply(w, StepOf(f))
  {
    if f.route.Accept? { AcceptInstalls(w, f); } else { ReleaseInstalls(w, f); }
  }

  /** The seat's lock is needed: an edit of the seat committed between the third statement and the commit would be lost,
      whichever order of the two one has in mind. */
  lemma UnlockedSeatLosesAnUpdate(w: World, f: Flight, capacity: nat)
    requires Valid(w) && FlightOk(w.store, f) && f.done == 3 && SeatOf(f.booking) in w.store.memberships
    requires var m := w.store.memberships[SeatOf(f.booking)]; m.activeMatters <= capacity != m.capacity
    ensures var m, seat := w.store.memberships[SeatOf(f.booking)], SeatOf(f.booking);
            var edit := AdjustSeat(seat.0, seat.1, m.available, m.conflictBlocked, capacity);
            var edited := CareAllocation.Apply(w, edit);
            var lost := edited.(store := Install(edited.store, f));
            && seat in edited.store.memberships && edited.store.memberships[seat].capacity == capacity
            && lost != CareAllocation.Apply(edited, StepOf(f))
            && lost != CareAllocation.Apply(CareAllocation.Apply(w, StepOf(f)), edit)
  {
    var m, seat := w.store.memberships[SeatOf(f.booking)], SeatOf(f.booking);
    var edit := AdjustSeat(seat.0, seat.1, m.available, m.conflictBlocked, capacity);
    var edited := CareAllocation.Apply(w, edit);
    LockedIsHeld(w.store.tables, f);
    assert edited.store.tables == w.store.tables && edited.store.memberships[seat] == m.(capacity := capacity);
    assert GuardsHold(edited.store.tables, f);
    InstallingIsTheStep(w, f);
    ReleasedIsEnded(edited, f);
    assert Install(edited.store, f).memberships[seat] == Freed(m);
  }

  // ---- Every event keeps it ----

  /** What a transaction rests on: the rows behind its guards, the key it inserts under, and the seat it has written. */
  predicate SameFor(s: Store, v: Store, f: Flight)
    requires f.booking.id in s.tables.bookings
  {
    var t, u, b := s.tables, v.tables, s.tables.bookings[f.booking.id];
    && f.booking.id in u.bookings && u.bookings[f.booking.id] == b
    && b.allocation in t.allocations && b.allocation in u.allocations
    && u.allocations[b.allocation] == t.allocations[b.allocation]
    && b.provider in t.providers && b.provider in u.providers && u.providers[b.provider] == t.providers[b.provider]
    && b.need in t.needs && b.need in u.needs && u.needs[b.need] == t.needs[b.need]
    && (f.route.Accept? ==> f.route.matter !in u.matters)
  }

  predicate SameSeat(s: Store, v: Store, f: Flight) {
    f.writes.seat.Some? ==>
      && SeatOf(f.booking) in s.memberships && SeatOf(f.booking) in v.memberships
      && v.memberships[SeatOf(f.booking)] == s.memberships[SeatOf(f.booking)]
  }

  lemma FlightStays(s: Store, v: Store, f: Flight)
    requires Sound(s.tables) && FlightOk(s, f) && f.booking.id in s.tables.bookings
    requires SameFor(s, v, f) && SameSeat(s, v, f) && (f.done >= 3 ==> SeatOf(f.booking) in s.memberships)
    ensures FlightOk(v, f)
  {
    LockedIsHeld(s.tables, f);
    assert LockBooking(v.tables, f.booking.id) == LockBooking(s.tables, f.booking.id);
  }

  predicate Touches(w: World, step: CareAllocation.Step, f: Flight) {
    || (Routes(step) && step.id == f.booking.id)
    || (step.AcceptBooking? && f.route.Accept? && step.matter == f.route.matter)
    || (step.CompleteAllocation? && step.id == f.booking.allocation)
    || (f.writes.seat.Some? && MovesSeat(w, step, SeatOf(f.booking)))
  }

  predicate Inserts(step: CareAllocation.Step) {
    step.NewProvider? || step.NewNeed? || step.SelectProvider? || step.RotateNeed? || step.Book?
  }

  predicate Ends(step: CareAllocation.Step) {
    step.CloseMatter? || step.CompleteAllocation?
  }

  predicate Routes(step: CareAllocation.Step) {
    step.AcceptBooking? || step.DeclineBooking? || step.CancelBooking?
  }

  lemma InsertsLeave(w: World, step: CareAllocation.Step, f: Flight)
    requires Inserts(step) && f.booking.id in w.store.tables.bookings && SameFor(w.store, w.store, f)
    ensures SameFor(w.store, CareAllocation.Apply(w, step).store, f)
  {
  }

  lemma EndsLeave(w: World, step: CareAllocation.Step, f: Flight)
    requires Ends(step) && f.booking.id in w.store.tables.bookings && SameFor(w.store, w.store, f)
    requires w.store.tables.bookings[f.booking.id].allocation == f.booking.allocation && !Touches(w, step, f)
    ensures SameFor(w.store, CareAllocation.Apply(w, step).store, f)
  {
  }

  /** No two bookings share an allocation. */
  lemma RoutesLeave(w: World, step: CareAllocation.Step, f: Flight)
    requires Routes(step) && f.booking.id in w.store.tables.bookings && SameFor(w.store, w.store, f)
    requires Sound(w.store.tables) && !Touches(w, step, f)
    ensures SameFor(w.store, CareAllocation.Apply(w, step).store, f)
  {
  }

  lemma OthersLeaveTables(w: World, step: CareAllocation.Step)
    requires !Inserts(step) && !Ends(step) && !Routes(step)
    ensures CareAllocation.Apply(w, step).store.tables == w.store.tables
  {
  }

  lemma WrittenSeatExists(s: Store, f: Flight)
    requires Consistent(s) && FlightOk(s, f)
    ensures f.done >= 3 || f.writes.seat.Some? ==> SeatOf(f.booking) in s.memberships
  {
    LockedIsHeld(s.tables, f);
    if f.done >= 3 {
      ReleaseSucceeds(s, f.booking.id, NextStatus(f.route), Ending(f.route), ReasonOf(f.route), f.now);
    }
  }

  /** A step that leaves a transaction's rows alone leaves its guards true and its row versions current. */
  lemma OtherStepsKeepFlight(w: World, step: CareAllocation.Step, f: Flight)
    requires Valid(w) && FlightOk(w.store, f) && !Touches(w, step, f)
    ensures FlightOk(CareAllocation.Apply(w, step).store, f)
  {
    var s, v := w.store, CareAllocation.Apply(w, step).store;
    LockedIsHeld(s.tables, f);
    assert SameFor(s, v, f) by {
      if Inserts(step) {
        InsertsLeave(w, step, f);
      } else if Ends(step) {
        EndsLeave(w, step, f);
      } else if Routes(step) {
        RoutesLeave(w, step, f);
      } else {
        OthersLeaveTables(w, step);
      }
    }
    WrittenSeatExists(s, f);
    if f.writes.seat.Some? { SeatStays(w, step, SeatOf(f.booking)); }
    FlightStays(s, v, f);
  }

  lemma FreeStepsTouchNobody(s: System, step: CareAllocation.Step, tx: nat)
    requires !Waits(s, step) && tx in s.flights
    ensures !Touches(s.world, step, s.flights[tx])
  {
    if s.flights[tx].writes.seat.Some? { assert Holds(s.flights[tx], SeatOf(s.flights[tx].booking)); }
  }

  lemma OtherKeeps(s: System, step: CareAllocation.Step)
    requires Invariant(s) && !Waits(s, step)
    ensures Invariant(s.(world := CareAllocation.Apply(s.world, step)))
  {
    CareAllocation.StepKeeps(s.world, step);
    forall tx | tx in s.flights
      ensures FlightOk(CareAllocation.Apply(s.world, step).store, s.flights[tx])
    {
      FreeStepsTouchNobody(s, step, tx);
      OtherStepsKeepFlight(s.world, step, s.flights[tx]);
    }
  }

  /** Before its commit a transaction holds the seat that its step moves. */
  lemma OwnSeatIsHeld(w: World, f: Flight, seat: Seat)
    requires Valid(w) && FlightOk(w.store, f) && f.done == Statements(f) && MovesSeat(w, StepOf(f), seat)
    ensures Holds(f, seat)
  {
    LockedIsHeld(w.store.tables, f);
    WrittenSeatExists(w.store, f);
  }

  lemma CommitTouchesNobody(w: World, f: Flight, g: Flight)
    requires Valid(w) && FlightOk(w.store, f) && FlightOk(w.store, g) && f.done == Statements(f) && Separate(f, g)
    ensures !Touches(w, StepOf(f), g)
  {
    if g.writes.seat.Some? && MovesSeat(w, StepOf(f), SeatOf(g.booking)) {
      OwnSeatIsHeld(w, f, SeatOf(g.booking));
    }
  }

  lemma CommitIsItsStep(s: System, tx: nat)
    requires Invariant(s) && tx in s.flights && s.flights[tx].done == Statements(s.flights[tx])
    ensures Apply(s, Commit(tx)) == System(CareAllocation.Apply(s.world, StepOf(s.flights[tx])), s.flights - {tx})
  {
    InstallingIsTheStep(s.world, s.flights[tx]);
  }

  lemma CommitKeeps(s: System, tx: nat)
    requires Invariant(s) && tx in s.flights && s.flights[tx].done == Statements(s.flights[tx])
    ensures Invariant(Apply(s, Commit(tx)))
  {
    var f := s.flights[tx];
    var step := StepOf(f);
    CommitIsItsStep(s, tx);
    CareAllocation.StepKeeps(s.world, step);
    forall y | y in s.flights && y != tx
      ensures FlightOk(CareAllocation.Apply(s.world, step).store, s.flights[y])
    {
      assert Separate(f, s.flights[y]);
      CommitTouchesNobody(s.world, f, s.flights[y]);
      OtherStepsKeepFlight(s.world, step, s.flights[y]);
    }
  }

  lemma WithFlight(s: Store, flights: map<nat, Flight>, tx: nat, f: Flight)
    requires FlightsOk(s, flights) && FlightOk(s, f)
    ensures FlightsOk(s, flights[tx := f])
  {
  }

  lemma StaysApart(flights: map<nat, Flight>, tx: nat, f: Flight)
    requires Apart(flights)
    requires forall y :: y in flights && y != tx ==> Separate(f, flights[y]) && Separate(flights[y], f)
    ensures Apart(flights[tx := f])
  {
  }

  /** A statement either waits for a seat that another transaction holds, or its row is written. */
  lemma StatementAdvances(s: System, tx: nat)
    requires Invariant(s) && tx in s.flights && s.flights[tx].done < Statements(s.flights[tx])
    ensures var f := s.flights[tx];
            if Blocked(s.flights, f) then Apply(s, Statement(tx)) == s
            else
              && Send(Install(s.world.store, f), f).Ok?
              && Apply(s, Statement(tx)) ==
                 s.(flights := s.flights[tx := Recorded(f, Send(Install(s.world.store, f), f).value)])
  {
    NoStatementFails(s, tx);
  }

  lemma RecordedIsSeparate(flights: map<nat, Flight>, f: Flight, after: Store, g: Flight)
    requires Separate(f, g) && Separate(g, f) && f.done < 3 && !(f.done == 2 && Holds(g, SeatOf(f.booking)))
    requires f.done < 2 ==> f.writes.seat.None?
    ensures Separate(Recorded(f, after), g) && Separate(g, Recorded(f, after))
  {
  }

  lemma StatementKeeps(s: System, tx: nat)
    requires Invariant(s) && tx in s.flights && s.flights[tx].done < Statements(s.flights[tx])
    ensures Invariant(Apply(s, Statement(tx)))
  {
    var f := s.flights[tx];
    StatementAdvances(s, tx);
    if !Blocked(s.flights, f) {
      NoStatementFails(s, tx);
      var after := Send(Install(s.world.store, f), f).value;
      assert FlightOk(s.world.store, f);
      forall y | y in s.flights && y != tx
        ensures Separate(Recorded(f, after), s.flights[y]) && Separate(s.flights[y], Recorded(f, after))
      {
        RecordedIsSeparate(s.flights, f, after, s.flights[y]);
      }
      WithFlight(s.world.store, s.flights, tx, Recorded(f, after));
      StaysApart(s.flights, tx, Recorded(f, after));
    }
  }

  lemma LockKeeps(s: System, tx: nat, id: Id, route: Route, now: int)
    requires Invariant(s)
    ensures Invariant(Apply(s, Lock(tx, id, route, now)))
  {
    var t, booking := s.world.store.tables, LockBooking(s.world.store.tables, id);
    if booking.Some? && RefusalOf(t, route, id, now).None? && !KeyInUse(s, route) && !BookingLocked(s.flights, id) {
      var f := Flight(booking.value, route, now, 0, NOTHING);
      WithFlight(s.world.store, s.flights, tx, f);
      StaysApart(s.flights, tx, f);
    }
  }

  lemma LandingKeeps(s: Store, flights: map<nat, Flight>, tx: nat)
    requires FlightsOk(s, flights) && Apart(flights)
    ensures FlightsOk(s, flights - {tx}) && Apart(flights - {tx})
  {
  }

  lemma EventKeeps(s: System, e: Event)
    requires Invariant(s)
    ensures Invariant(Apply(s, e))
  {
    match e {
      case Lock(tx, id, route, now) => LockKeeps(s, tx, id, route, now);
      case Statement(tx) =>
        if tx in s.flights && s.flights[tx].done < Statements(s.flights[tx]) { StatementKeeps(s, tx); }
      case Commit(tx) => if tx in s.flights && s.flights[tx].done == Statements(s.flights[tx]) { CommitKeeps(s, tx); }
      case Abort(tx) => LandingKeeps(s.world.store, s.flights, tx);
      case Other(step) => if !Waits(s, step) { OtherKeeps(s, step); }
    }
  }

  lemma {:induction false} RunKeeps(s: System, events: seq<Event>)
    requires Invariant(s)
    ensures Invariant(Run(s, events))
    decreases |events|
  {
    if events != [] {
      EventKeeps(s, events[0]);
      RunKeeps(Apply(s, events[0]), events[1..]);
    }
  }

  lemma StartIsValid()
    ensures Invariant(START)
  {
    EmptyWorldIsValid();
  }

  // ---- Results ----

  /** A statement waits for a seat or is accepted; a commit takes the route's one step on what is committed by then. */
  predicate Lands(s: System, tx: nat)
    requires tx in s.flights
  {
    var f := s.flights[tx];
    if f.done < Statements(f) then
      Blocked(s.flights, f) ||
      (tx in Apply(s, Statement(tx)).flights && Apply(s, Statement(tx)).flights[tx].done == f.done + 1)
    else Apply(s, Commit(tx)) == System(CareAllocation.Apply(s.world, StepOf(f)), s.flights - {tx})
  }

  lemma FlightLands(s: System, tx: nat)
    requires Invariant(s) && tx in s.flights
    ensures Lands(s, tx)
  {
    assert FlightOk(s.world.store, s.flights[tx]);
    if s.flights[tx].done < Statements(s.flights[tx]) { StatementAdvances(s, tx); } else { CommitIsItsStep(s, tx); }
  }

  /** In every reachable state, whatever others have committed since its guards passed, every transaction can go on. */
  lemma EveryFlightLands(events: seq<Event>, tx: nat)
    requires tx in Run(START, events).flights
    ensures Lands(Run(START, events), tx)
  {
    StartIsValid();
    RunKeeps(START, events);
    FlightLands(Run(START, events), tx);
  }

  /** The steps of a run in the order in which they were committed. */
  function Serial(s: System, events: seq<Event>): seq<CareAllocation.Step>
    decreases |events|
  {
    if events == [] then []
    else
      (match events[0]
       case Commit(tx) =>
         if tx in s.flights && s.flights[tx].done == Statements(s.flights[tx]) then [StepOf(s.flights[tx])] else []
       case Other(step) => if Waits(s, step) then [] else [step]
       case _ => []) + Serial(Apply(s, events[0]), events[1..])
  }

  lemma RunPrepends(w: World, step: CareAllocation.Step, rest: seq<CareAllocation.Step>)
    ensures CareAllocation.Run(w, [step] + rest) == CareAllocation.Run(CareAllocation.Apply(w, step), rest)
  {
    assert ([step] + rest)[0] == step && ([step] + rest)[1..] == rest;
  }

  /** Serializability: installing the rows that interleaved statements wrote leaves what the whole transactions leave,
      run one after the other in the order of their commits. No update is lost. */
  lemma {:induction false} InterleavingsAreSerial(s: System, events: seq<Event>)
    requires Invariant(s)
    ensures Run(s, events).world == CareAllocation.Run(s.world, Serial(s, events))
    decreases |events|
  {
    if events != [] {
      var e, rest := events[0], Serial(Apply(s, events[0]), events[1..]);
      EventKeeps(s, e);
      InterleavingsAreSerial(Apply(s, e), events[1..]);
      if e.Commit? && e.tx in s.flights && s.flights[e.tx].done == Statements(s.flights[e.tx]) {
        CommitIsItsStep(s, e.tx);
        RunPrepends(s.world, StepOf(s.flights[e.tx]), rest);
      } else if e.Other? && !Waits(s, e.step) {
        RunPrepends(s.world, e.step, rest);
      } else {
        assert Serial(s, events) == rest;
      }
    }
  }
}
