/** The accept, decline and cancel transactions: ordered statements against the tables' triggers, in one transaction. */
module BookingRoutes {
  import opened Sequences
  import opened SchedulingTables

  /** A row of roster_membership. */
  datatype Membership = Membership(available: bool, conflictBlocked: bool, capacity: nat, activeMatters: nat,
                                   lastAssignedAt: Option<int>)

  type Seat = (Id, Id)

  /** The tables the routes write: those of the scheduling triggers, roster memberships by (roster, provider), and
      the conduct signals recorded so far. */
  datatype Store = Store(tables: Tables, memberships: map<Seat, Membership>, signals: seq<(Id, string)>)

  datatype AppError =
    | BookingNotFound | Forbidden | AllocationNotActive | InvalidBookingState | CancellationPolicyNotConfigured
    | AlreadyHasMatter | StateConflict | NotUpdatedOnce | Refused(error: DbError)

  // ---- booking-state.ts ----

  function AllowedTransitions(from: BookingStatus): set<BookingStatus> {
    if from == Held then {Confirmed, BookingDeclined, BookingCancelled} else {}
  }

  // ---- locked-booking.ts ----

  datatype LockedBooking = LockedBooking(id: Id, status: BookingStatus, allocationStatus: AllocationStatus,
                                         provider: Id,
                                         providerUser: Id, allocation: Id, citizen: Id, roster: Option<Id>)

  /** The four-way join of lockBooking; none when any of the rows is missing. */
  function LockBooking(t: Tables, id: Id): Option<LockedBooking> {
    if id !in t.bookings then None
    else
      var b := t.bookings[id];
      if b.provider !in t.providers || b.allocation !in t.allocations || b.need !in t.needs then None
      else
        var a := t.allocations[b.allocation];
        Some(LockedBooking(id, b.status, a.status, b.provider, t.providers[b.provider], b.allocation, t.needs[b.need],
                           a.roster))
  }

  /** UPDATE booking SET status, updated_at WHERE id AND status, which must hit exactly one row. */
  function TransitionLockedBooking(t: Tables, booking: LockedBooking, next: BookingStatus,
                                   now: int): Result<Tables, AppError>
  {
    if next !in AllowedTransitions(booking.status) then Err(InvalidBookingState)
    else if booking.id !in t.bookings || t.bookings[booking.id].status != booking.status then Err(NotUpdatedOnce)
    else Guarded(UpdateBooking(t, booking.id, t.bookings[booking.id].(status := next, updatedAt := now)))
  }

  function Guarded<T>(r: Result<T, DbError>): Result<T, AppError> {
    match r
    case Ok(value) => Ok(value)
    case Err(error) => Err(Refused(error))
  }

  // ---- Statements of the routes ----

  /** INSERT INTO matter … 'OPEN'; a uniqueness violation is reported as a matter that already exists. */
  function OpenMatter(t: Tables, booking: LockedBooking, id: Id, now: int): Result<Tables, AppError> {
    match InsertMatter(t, id, Matter(booking.allocation, booking.provider, booking.citizen, Open, now, None, None))
    case Ok(u) => Ok(u)
    case Err(error) => Err(if error == UniqueViolation then AlreadyHasMatter else Refused(error))
  }

  /** UPDATE allocation SET status, ended_at, decline_reason WHERE id AND status = 'ASSIGNED', exactly one row. */
  function ReleaseAllocation(t: Tables, id: Id, status: AllocationStatus, reason: Option<string>,
                             now: int): Result<Tables, AppError>
  {
    if id !in t.allocations || t.allocations[id].status != Assigned then Err(StateConflict)
    else Guarded(UpdateAllocation(t, id, Released(t.allocations[id], status, reason, now)))
  }

  function Released(a: Allocation, status: AllocationStatus, reason: Option<string>, now: int): Allocation {
    a.(status := status, endedAt := Some(now), declineReason := if reason.Some? then reason else a.declineReason)
  }

  /** UPDATE roster_membership SET active_matters = active_matters - 1 WHERE … AND active_matters > 0, exactly one
      row. */
  function ReleaseSeat(memberships: map<Seat, Membership>, seat: Seat): Result<map<Seat, Membership>, AppError> {
    if seat !in memberships || memberships[seat].activeMatters == 0 then Err(StateConflict)
    else Ok(memberships[seat := Freed(memberships[seat])])
  }

  function Freed(m: Membership): Membership {
    m.(activeMatters := if m.activeMatters > 0 then m.activeMatters - 1 else 0)
  }

  /** A booking moves on only from HELD, and only as it was read; otherwise the update hits no row. */
  lemma TransitionIff(t: Tables, booking: LockedBooking, next: BookingStatus, now: int)
    ensures var r := TransitionLockedBooking(t, booking, next, now);
            && (r == Err(InvalidBookingState) <==>
                  !(booking.status == Held && next in {Confirmed, BookingDeclined, BookingCancelled}))
            && (r == Err(NotUpdatedOnce) <==>
                  && r != Err(InvalidBookingState)
                  && (booking.id in t.bookings ==> t.bookings[booking.id].status != Held))
            && (booking.id in t.bookings && r != Err(InvalidBookingState) && r != Err(NotUpdatedOnce) ==>
                  var b := t.bookings[booking.id];
                  r == Guarded(UpdateBooking(t, booking.id, Booking(b.need, b.allocation, b.provider, b.citizen, b.slot,
                                                                    next, b.createdAt, now))))
  {
  }

  /** A second matter, by its id or for its allocation, is answered as such; other refusals are the database's own. */
  lemma OpeningIff(t: Tables, booking: LockedBooking, id: Id, now: int)
    ensures var r := OpenMatter(t, booking, id, now);
            var row := Matter(booking.allocation, booking.provider, booking.citizen, Open, now, None, None);
            && (r == Err(AlreadyHasMatter) <==> InsertMatter(t, id, row) == Err(UniqueViolation))
            && (r.Ok? <==> InsertMatter(t, id, row).Ok?)
            && (r.Ok? ==> r.value == t.(matters := t.matters[id := row]))
  {
  }

  /** Only an ASSIGNED allocation is released, and only a seat that counts a matter is given back. */
  lemma ReleasingIff(t: Tables, id: Id, status: AllocationStatus, reason: Option<string>, now: int,
                     memberships: map<Seat, Membership>, seat: Seat)
    ensures ReleaseAllocation(t, id, status, reason, now) == Err(StateConflict) <==>
            id in t.allocations ==> t.allocations[id].status != Assigned
    ensures ReleaseSeat(memberships, seat).Ok? <==> seat in memberships && memberships[seat].activeMatters > 0
    ensures ReleaseSeat(memberships, seat).Err? ==> ReleaseSeat(memberships, seat).error == StateConflict
    ensures ReleaseSeat(memberships, seat).Ok? ==>
              var m := memberships[seat];
              ReleaseSeat(memberships, seat).value ==
              memberships[seat := Membership(m.available, m.conflictBlocked, m.capacity, m.activeMatters - 1,
                                             m.lastAssignedAt)]
  {
  }

  // ---- Capacity ----

  /** The allocations that occupy a seat: a completed one still does. */
  function Charged(allocations: map<Id, Allocation>, seat: Seat): set<Id> {
    set a | a in allocations && Charges(allocations[a], seat)
  }

  predicate Charges(a: Allocation, seat: Seat) {
    a.roster == Some(seat.0) && a.provider == seat.1 && a.status in {Assigned, Completed}
  }

  predicate SeatOk(allocations: map<Id, Allocation>, memberships: map<Seat, Membership>, seat: Seat) {
    seat in memberships && memberships[seat].activeMatters == |Charged(allocations, seat)| <= memberships[seat].capacity
  }

  /** Every membership's counter is the number of allocations that occupy it, and stays within its capacity. */
  predicate Conserved(allocations: map<Id, Allocation>, memberships: map<Seat, Membership>) {
    && (forall seat {:trigger SeatOk(allocations, memberships, seat)} :: seat in memberships ==>
          SeatOk(allocations, memberships, seat))
    && (forall a :: a in allocations && allocations[a].roster.Some? ==>
          (allocations[a].roster.value, allocations[a].provider) in memberships)
  }

  predicate Consistent(s: Store) {
    Sound(s.tables) && Conserved(s.tables.allocations, s.memberships)
  }

  /** Replacing one allocation changes the occupancy of its own seat only. */
  lemma ChargedAfter(allocations: map<Id, Allocation>, id: Id, row: Allocation, seat: Seat)
    ensures Charged(allocations[id := row], seat) ==
            if Charges(row, seat) then Charged(allocations, seat) + {id} else Charged(allocations, seat) - {id}
  {
  }

  lemma ReleasingKeepsConserved(allocations: map<Id, Allocation>, memberships: map<Seat, Membership>, id: Id,
                                row: Allocation)
    requires Conserved(allocations, memberships) && id in allocations && allocations[id].status == Assigned
    requires row.roster == allocations[id].roster && row.provider == allocations[id].provider
    requires row.status in {Declined, Cancelled}
    ensures var seat := (if row.roster.Some? then row.roster.value else 0, row.provider);
            if row.roster.Some? then
              ReleaseSeat(memberships, seat).Ok? &&
              Conserved(allocations[id := row], memberships[seat := Freed(memberships[seat])])
            else Conserved(allocations[id := row], memberships)
  {
    var after := allocations[id := row];
    var seat := (if row.roster.Some? then row.roster.value else 0, row.provider);
    var freed := if row.roster.Some? then memberships[seat := Freed(memberships[seat])] else memberships;
    if row.roster.Some? {
      assert SeatOk(allocations, memberships, seat);
      assert id in Charged(allocations, seat);
    }
    forall k | k in freed
      ensures SeatOk(after, freed, k)
    {
      assert SeatOk(allocations, memberships, k);
      ChargedAfter(allocations, id, row, k);
      if !(row.roster.Some? && k == seat) { assert id !in Charged(allocations, k); }
    }
  }

  // ---- What the three routes promise ----

  datatype ActorKind = Citizen | Operator | Provider

  /** delegated: what assertCitizenAuthority says about an operator and the booking's citizen. */
  datatype Actor = Actor(id: Id, kind: ActorKind, onBehalfOf: Option<Id>, delegated: bool)

  function ActingCitizen(actor: Actor): Id {
    if actor.onBehalfOf.Some? then actor.onBehalfOf.value else actor.id
  }

  predicate OwnsBooking(actor: Actor, booking: LockedBooking) {
    if actor.kind == Provider then booking.providerUser == actor.id else booking.citizen == ActingCitizen(actor)
  }

  /** Why accept or decline refuses, in the order of the checks; none when it goes through. The last line is the
      trigger's: a booking's update time cannot move backwards. */
  function ProviderRefusal(t: Tables, user: Id, id: Id, now: int): Option<AppError> {
    var booking := LockBooking(t, id);
    if booking.None? then Some(BookingNotFound)
    else if booking.value.providerUser != user then Some(Forbidden)
    else if booking.value.allocationStatus != Assigned then Some(AllocationNotActive)
    else if booking.value.status != Held then Some(InvalidBookingState)
    else if id in t.bookings && now < t.bookings[id].updatedAt then Some(Refused(CheckViolation))
    else None
  }

  function CancelRefusal(t: Tables, actor: Actor, id: Id, now: int): Option<AppError> {
    var booking := LockBooking(t, id);
    if booking.None? then Some(BookingNotFound)
    else if actor.kind == Operator && !actor.delegated then Some(Forbidden)
    else if !OwnsBooking(actor, booking.value) then Some(Forbidden)
    else if booking.value.allocationStatus != Assigned then Some(AllocationNotActive)
    else if booking.value.status in {Confirmed, Scheduled} then Some(CancellationPolicyNotConfigured)
    else if booking.value.status != Held then Some(InvalidBookingState)
    else if id in t.bookings && now < t.bookings[id].updatedAt then Some(Refused(CheckViolation))
    else None
  }

  function WithBooking(t: Tables, id: Id, status: BookingStatus, now: int): Tables
    requires id in t.bookings
  {
    t.(bookings := t.bookings[id := t.bookings[id].(status := status, updatedAt := now)])
  }

  function AfterAccept(s: Store, id: Id, matter: Id, now: int): Store
    requires id in s.tables.bookings
  {
    var b := s.tables.bookings[id];
    var row := Matter(b.allocation, b.provider, b.citizen, Open, now, None, None);
    s.(tables := WithBooking(s.tables, id, Confirmed, now).(matters := s.tables.matters[matter := row]))
  }

  function ReleasedTables(t: Tables, id: Id, status: BookingStatus, ended: AllocationStatus, reason: Option<string>,
                          now: int): Tables
    requires id in t.bookings && t.bookings[id].allocation in t.allocations
  {
    var allocation := t.bookings[id].allocation;
    var row := Released(t.allocations[allocation], ended, reason, now);
    WithBooking(t, id, status, now).(allocations := t.allocations[allocation := row])
  }

  function ReleasedSeats(memberships: map<Seat, Membership>, a: Allocation): map<Seat, Membership> {
    if a.roster.Some? && (a.roster.value, a.provider) in memberships then
      memberships[(a.roster.value, a.provider) := Freed(memberships[(a.roster.value, a.provider)])]
    else memberships
  }

  function RecordedSignals(signals: seq<(Id, string)>, a: Allocation, reason: Option<string>): seq<(Id, string)> {
    if a.roster.Some? && reason.Some? then signals + [(a.provider, reason.value)] else signals
  }

  /** The booking and its allocation end together, the seat of a rotation allocation is freed, and only a decline
      of a rotation allocation is signalled. */
  function AfterRelease(s: Store, id: Id, status: BookingStatus, ended: AllocationStatus, reason: Option<string>,
                        now: int): Store
    requires id in s.tables.bookings && s.tables.bookings[id].allocation in s.tables.allocations
  {
    var a := s.tables.allocations[s.tables.bookings[id].allocation];
    Store(ReleasedTables(s.tables, id, status, ended, reason, now), ReleasedSeats(s.memberships, a),
          RecordedSignals(s.signals, a, reason))
  }

  // ---- No later statement can fail once the guards pass ----

  lemma LockFinds(t: Tables, id: Id)
    requires Sound(t) && id in t.bookings
    ensures var b := t.bookings[id];
            && b.allocation in t.allocations && b.provider in t.providers
            && LockBooking(t, id) == Some(LockedBooking(id, b.status, t.allocations[b.allocation].status, b.provider,
                                                        t.providers[b.provider], b.allocation, b.citizen,
                                                        t.allocations[b.allocation].roster))
            && t.allocations[b.allocation].provider == b.provider
            && (b.status == Held ==> t.allocations[b.allocation].status == Assigned)
  {
    var b := t.bookings[id];
    assert BookingOk(t, b);
    assert AllocationOk(t, t.allocations[b.allocation]);
  }

  lemma TransitionSucceeds(t: Tables, id: Id, next: BookingStatus, now: int)
    requires Sound(t) && id in t.bookings && t.bookings[id].status == Held && now >= t.bookings[id].updatedAt
    requires next in AllowedTransitions(Held) && LockBooking(t, id).Some?
    ensures TransitionLockedBooking(t, LockBooking(t, id).value, next, now) == Ok(WithBooking(t, id, next, now))
    ensures Sound(WithBooking(t, id, next, now))
  {
    var b := t.bookings[id];
    var row := b.(status := next, updatedAt := now);
    assert BookingOk(t, b);
    LockFinds(t, id);
    assert AssignedTo(t.allocations, b);
    assert BookingGuard(t, b, row) == Ok(());
    assert !SlotTaken(t.bookings, row, id) by {
      forall c | c in t.bookings && c != id
        ensures !Clash(t.bookings[c], row)
      {
        assert !Clash(t.bookings[c], b);
      }
    }
    assert UpdateBooking(t, id, row) == Ok(WithBooking(t, id, next, now));
    SetBookingKeeps(t, id, row);
  }

  /** A matter needs an accepted booking of its allocation, and this allocation's only booking is still held. */
  lemma HeldHasNoMatter(t: Tables, id: Id, m: Id)
    requires Sound(t) && id in t.bookings && t.bookings[id].status == Held && m in t.matters
    ensures t.matters[m].allocation != t.bookings[id].allocation
  {
    var x := t.matters[m];
    assert MatterOk(t, x);
    var b :| b in t.bookings && BookedFor(t.bookings[b], x.allocation, x.provider, x.citizen) &&
             Accepted(t.bookings[b].status);
    assert b != id;
  }

  /** Accepting: the booking's update and the matter's insert both go through; there is no earlier matter. */
  lemma AcceptSucceeds(s: Store, id: Id, matter: Id, now: int)
    requires Consistent(s) && id in s.tables.bookings && matter !in s.tables.matters
    requires s.tables.bookings[id].status == Held && now >= s.tables.bookings[id].updatedAt
    ensures LockBooking(s.tables, id).Some?
    ensures var booking := LockBooking(s.tables, id).value;
            && TransitionLockedBooking(s.tables, booking, Confirmed, now) ==
                 Ok(WithBooking(s.tables, id, Confirmed, now))
            && OpenMatter(WithBooking(s.tables, id, Confirmed, now), booking, matter, now) ==
                 Ok(AfterAccept(s, id, matter, now).tables)
    ensures Consistent(AfterAccept(s, id, matter, now))
  {
    var t := s.tables;
    LockFinds(t, id);
    TransitionSucceeds(t, id, Confirmed, now);
    var u := WithBooking(t, id, Confirmed, now);
    var b := u.bookings[id];
    var row := Matter(b.allocation, b.provider, b.citizen, Open, now, None, None);
    forall m | m in t.matters
      ensures t.matters[m].allocation != b.allocation
    {
      HeldHasNoMatter(t, id, m);
    }
    assert BookedFor(u.bookings[id], row.allocation, row.provider, row.citizen) && Accepted(u.bookings[id].status);
    assert HasBooking(u.bookings, row.allocation, row.provider, row.citizen);
    assert HasAcceptedBooking(u.bookings, row.allocation, row.provider, row.citizen);
    assert InsertMatter(u, matter, row) == Ok(u.(matters := u.matters[matter := row]));
    NewMatterKeeps(u, matter, row);
  }

  lemma ReleaseUpdateSucceeds(t: Tables, id: Id, row: Allocation)
    requires Sound(t) && id in t.allocations && !HasActiveBooking(t.bookings, id) && !HasOpenMatter(t.matters, id)
    requires row.status in {Declined, Cancelled} && SameParties(t.allocations[id], row) && AllocationShape(row)
    ensures UpdateAllocation(t, id, row) == Ok(t.(allocations := t.allocations[id := row]))
    ensures Sound(t.(allocations := t.allocations[id := row]))
  {
    assert AllocationOk(t, t.allocations[id]);
    SetAllocationKeeps(t, id, row);
  }

  lemma EndedHasNothingActive(t: Tables, id: Id, status: BookingStatus, now: int)
    requires Sound(t) && id in t.bookings && t.bookings[id].status == Held && !Active(status)
    ensures var u := WithBooking(t, id, status, now);
            !HasActiveBooking(u.bookings, t.bookings[id].allocation) &&
            !HasOpenMatter(u.matters, t.bookings[id].allocation)
  {
    forall m | m in t.matters
      ensures t.matters[m].allocation != t.bookings[id].allocation
    {
      HeldHasNoMatter(t, id, m);
    }
  }

  /** Declining or cancelling: booking, allocation and seat are all released, each update hitting one row. */
  lemma ReleaseSucceeds(s: Store, id: Id, status: BookingStatus, ended: AllocationStatus, reason: Option<string>,
                        now: int)
    requires Consistent(s) && id in s.tables.bookings
    requires s.tables.bookings[id].status == Held && now >= s.tables.bookings[id].updatedAt
    requires status in {BookingDeclined, BookingCancelled} && ended in {Declined, Cancelled}
    ensures LockBooking(s.tables, id).Some? && s.tables.bookings[id].allocation in s.tables.allocations
    ensures var booking := LockBooking(s.tables, id).value;
            var after := AfterRelease(s, id, status, ended, reason, now);
            && TransitionLockedBooking(s.tables, booking, status, now) == Ok(WithBooking(s.tables, id, status, now))
            && ReleaseAllocation(WithBooking(s.tables, id, status, now), booking.allocation, ended, reason, now) ==
                 Ok(after.tables)
            && (booking.roster.Some? ==>
                  ReleaseSeat(s.memberships, (booking.roster.value, booking.provider)) == Ok(after.memberships))
            && Consistent(after)
  {
    var t := s.tables;
    LockFinds(t, id);
    TransitionSucceeds(t, id, status, now);
    var u, allocation := WithBooking(t, id, status, now), t.bookings[id].allocation;
    var row := Released(t.allocations[allocation], ended, reason, now);
    EndedHasNothingActive(t, id, status, now);
    assert AllocationOk(t, t.allocations[allocation]);
    ReleaseUpdateSucceeds(u, allocation, row);
    ReleasingKeepsConserved(t.allocations, s.memberships, allocation, row);
  }

  /** The order of the two updates matters: an allocation whose booking is still held cannot be released. */
  lemma ReleasingFirstIsRefused(t: Tables, id: Id, ended: AllocationStatus, reason: Option<string>, now: int)
    requires Sound(t) && id in t.bookings && t.bookings[id].status == Held && ended in {Declined, Cancelled}
    ensures ReleaseAllocation(t, t.bookings[id].allocation, ended, reason, now) == Err(Refused(CheckViolation))
  {
    LockFinds(t, id);
    assert HasActiveBooking(t.bookings, t.bookings[id].allocation);
  }

  // ---- The same, column by column ----

  /** The booking can be answered: HELD, on an ASSIGNED allocation, and not last changed after `now`. */
  predicate Answerable(t: Tables, id: Id, now: int) {
    && id in t.bookings && t.bookings[id].status == Held && t.bookings[id].updatedAt <= now
    && t.bookings[id].allocation in t.allocations && t.allocations[t.bookings[id].allocation].status == Assigned
    && t.bookings[id].provider in t.providers && t.bookings[id].need in t.needs
  }

  /** By its provider: the user behind the booking's provider row. */
  predicate MayAnswer(t: Tables, user: Id, id: Id, now: int) {
    Answerable(t, id, now) && t.providers[t.bookings[id].provider] == user
  }

  /** By its provider, by the need's citizen, or by an operator with authority over whom they act for. */
  predicate MayCancel(t: Tables, actor: Actor, id: Id, now: int) {
    && Answerable(t, id, now) && (actor.kind == Operator ==> actor.delegated)
    && if actor.kind == Provider then t.providers[t.bookings[id].provider] == actor.id
       else t.needs[t.bookings[id].need] == (if actor.onBehalfOf == None then actor.id else actor.onBehalfOf.value)
  }

  lemma GuardsPassIff(t: Tables, user: Id, actor: Actor, id: Id, now: int)
    ensures ProviderRefusal(t, user, id, now) == None <==> MayAnswer(t, user, id, now)
    ensures CancelRefusal(t, actor, id, now) == None <==> MayCancel(t, actor, id, now)
  {
  }

  /** The rows after an accept: the booking confirmed at that time, and an open matter of the booking's parties. */
  predicate AcceptedRows(s: Store, r: Store, id: Id, matter: Id, now: int)
    requires id in s.tables.bookings
  {
    var b := s.tables.bookings[id];
    && r.tables.bookings ==
         s.tables.bookings[id := Booking(b.need, b.allocation, b.provider, b.citizen, b.slot, Confirmed, b.createdAt,
                                         now)]
    && r.tables.matters ==
         s.tables.matters[matter := Matter(b.allocation, b.provider, b.citizen, Open, now, None, None)]
    && r.tables.allocations == s.tables.allocations && r.tables.needs == s.tables.needs
    && r.tables.providers == s.tables.providers && r.memberships == s.memberships && r.signals == s.signals
  }

  /** One matter less on the seat of a rotation; its other columns, and every other seat, as before. */
  predicate SeatGivenBack(was: map<Seat, Membership>, rows: map<Seat, Membership>, a: Allocation) {
    match a.roster
    case None => rows == was
    case Some(roster) =>
      && (roster, a.provider) in was && was[(roster, a.provider)].activeMatters > 0
      && var m := was[(roster, a.provider)];
         rows == was[(roster, a.provider) := Membership(m.available, m.conflictBlocked, m.capacity, m.activeMatters - 1,
                                                        m.lastAssignedAt)]
  }

  /** The rows after a decline or a cancel: booking and allocation ended at that time with their own statuses. */
  predicate EndedRows(s: Store, r: Store, id: Id, status: BookingStatus, ended: AllocationStatus,
                      declineReason: Option<string>, now: int)
    requires id in s.tables.bookings && s.tables.bookings[id].allocation in s.tables.allocations
  {
    var b := s.tables.bookings[id];
    var a := s.tables.allocations[b.allocation];
    && r.tables.bookings == s.tables.bookings[id := Booking(b.need, b.allocation, b.provider, b.citizen, b.slot, status,
                                                            b.createdAt, now)]
    && r.tables.allocations ==
         s.tables.allocations[b.allocation := Allocation(a.need, a.provider, a.mode, a.roster, a.seed, a.position,
                                                         ended, Some(now), declineReason)]
    && r.tables.matters == s.tables.matters && r.tables.needs == s.tables.needs
    && r.tables.providers == s.tables.providers
    && SeatGivenBack(s.memberships, r.memberships, a)
  }

  predicate DeclinedRows(s: Store, r: Store, id: Id, reason: string, now: int) {
    && id in s.tables.bookings && s.tables.bookings[id].allocation in s.tables.allocations
    && EndedRows(s, r, id, BookingDeclined, AllocationStatus.Declined, Some(reason), now)
    && var a := s.tables.allocations[s.tables.bookings[id].allocation];
       r.signals == if a.roster == None then s.signals else s.signals + [(a.provider, reason)]
  }

  predicate CancelledRows(s: Store, r: Store, id: Id, now: int) {
    && id in s.tables.bookings && s.tables.bookings[id].allocation in s.tables.allocations
    && EndedRows(s, r, id, BookingCancelled, AllocationStatus.Cancelled,
                 s.tables.allocations[s.tables.bookings[id].allocation].declineReason, now)
    && r.signals == s.signals
  }

  lemma AcceptLeavesRows(s: Store, id: Id, matter: Id, now: int)
    requires id in s.tables.bookings
    ensures AcceptedRows(s, AfterAccept(s, id, matter, now), id, matter, now)
  {
  }

  lemma HeldSeatIsCounted(s: Store, id: Id)
    requires Consistent(s) && id in s.tables.bookings && s.tables.bookings[id].status == Held
    ensures s.tables.bookings[id].allocation in s.tables.allocations
    ensures var a := s.tables.allocations[s.tables.bookings[id].allocation];
            a.roster.Some? ==>
              (a.roster.value, a.provider) in s.memberships &&
              s.memberships[(a.roster.value, a.provider)].activeMatters > 0
  {
    var allocation := s.tables.bookings[id].allocation;
    LockFinds(s.tables, id);
    var a := s.tables.allocations[allocation];
    if a.roster.Some? {
      assert SeatOk(s.tables.allocations, s.memberships, (a.roster.value, a.provider));
      assert allocation in Charged(s.tables.allocations, (a.roster.value, a.provider));
    }
  }

  lemma ReleaseEndsRows(s: Store, id: Id, status: BookingStatus, ended: AllocationStatus, reason: Option<string>,
                        now: int)
    requires Consistent(s) && id in s.tables.bookings && s.tables.bookings[id].status == Held
    ensures s.tables.bookings[id].allocation in s.tables.allocations
    ensures EndedRows(s, AfterRelease(s, id, status, ended, reason, now), id, status, ended,
                      if reason == None then s.tables.allocations[s.tables.bookings[id].allocation].declineReason
                      else reason, now)
  {
    HeldSeatIsCounted(s, id);
  }

  lemma ReleaseLeavesRows(s: Store, id: Id, reason: string, now: int)
    requires Consistent(s) && id in s.tables.bookings && s.tables.bookings[id].status == Held
    ensures s.tables.bookings[id].allocation in s.tables.allocations
    ensures DeclinedRows(s, AfterRelease(s, id, BookingDeclined, Declined, Some(reason), now), id, reason, now)
    ensures CancelledRows(s, AfterRelease(s, id, BookingCancelled, Cancelled, None, now), id, now)
  {
    ReleaseEndsRows(s, id, BookingDeclined, Declined, Some(reason), now);
    ReleaseEndsRows(s, id, BookingCancelled, Cancelled, None, now);
  }

  // ---- The transactions: a local copy until COMMIT; an error leaves before it ----

  class Database {
    var tables: Tables
    var memberships: map<Seat, Membership>
    var signals: seq<(Id, string)>

    function State(): Store
      reads this
    {
      Store(tables, memberships, signals)
    }

    constructor (store: Store)
      ensures State() == store
    {
      tables, memberships, signals := store.tables, store.memberships, store.signals;
    }

    /** POST /v1/bookings/:id/accept; `matter` is the generated key. */
    method Accept(user: Id, id: Id, matter: Id, now: int) returns (result: Result<BookingStatus, AppError>)
      requires Consistent(State()) && matter !in tables.matters
      modifies this
      ensures Consistent(State())
      ensures match ProviderRefusal(old(tables), user, id, now)
              case Some(error) => result == Err(error) && State() == old(State())
              case None =>
                id in old(tables).bookings && result == Ok(Confirmed) &&
                State() == AfterAccept(old(State()), id, matter, now)
      ensures result.Ok? <==> MayAnswer(old(tables), user, id, now)
      ensures result.Ok? ==> id in old(tables).bookings && AcceptedRows(old(State()), State(), id, matter, now)
    {
      var before := State();
      GuardsPassIff(tables, user, Actor(0, Citizen, None, false), id, now);
      if id in tables.bookings { AcceptLeavesRows(before, id, matter, now); }
      var locked := LockBooking(tables, id);
      if locked.None? { return Err(BookingNotFound); }
      var booking := locked.value;
      LockFinds(tables, id);
      if booking.providerUser != user { return Err(Forbidden); }
      if booking.allocationStatus != Assigned { return Err(AllocationNotActive); }
      if booking.status == Held && now >= tables.bookings[id].updatedAt { AcceptSucceeds(before, id, matter, now); }
      var t :- TransitionLockedBooking(tables, booking, Confirmed, now);
      match OpenMatter(t, booking, matter, now) {
        case Err(error) => return Err(error);
        case Ok(u) => tables := u;
      }
      return Ok(Confirmed);
    }

    /** What decline and cancel do once the booking is locked and its guards have passed. */
    method Release(booking: LockedBooking, status: BookingStatus, ended: AllocationStatus, reason: Option<string>,
                   now: int)
        returns (result: Result<BookingStatus, AppError>)
      requires Consistent(State()) && LockBooking(tables, booking.id) == Some(booking)
      requires booking.allocationStatus == Assigned
      requires status in {BookingDeclined, BookingCancelled} && ended in {Declined, Cancelled}
      modifies this
      ensures Consistent(State()) && booking.id in old(tables).bookings && booking.allocation in old(tables).allocations
      ensures if booking.status != Held then result == Err(InvalidBookingState) && State() == old(State())
              else if now < old(tables).bookings[booking.id].updatedAt then
                result == Err(Refused(CheckViolation)) && State() == old(State())
              else
                result == Ok(status) && old(tables).bookings[booking.id].allocation == booking.allocation &&
                State() == AfterRelease(old(State()), booking.id, status, ended, reason, now)
      ensures result.Ok? <==> Answerable(old(tables), booking.id, now)
      ensures result.Ok? ==>
                EndedRows(old(State()), State(), booking.id, status, ended,
                          if reason == None then old(tables).allocations[booking.allocation].declineReason else reason,
                          now)
    {
      var before := State();
      LockFinds(tables, booking.id);
      if booking.status == Held && now >= tables.bookings[booking.id].updatedAt {
        ReleaseSucceeds(before, booking.id, status, ended, reason, now);
        ReleaseEndsRows(before, booking.id, status, ended, reason, now);
      }
      var t :- TransitionLockedBooking(tables, booking, status, now);
      match ReleaseAllocation(t, booking.allocation, ended, reason, now) {
        case Err(error) => return Err(error);
        case Ok(released) => t := released;
      }
      var seats, recorded := memberships, signals;
      if booking.roster.Some? {
        match ReleaseSeat(seats, (booking.roster.value, booking.provider)) {
          case Err(error) => return Err(error);
          case Ok(freed) => seats := freed;
        }
        if reason.Some? { recorded := recorded + [(booking.provider, reason.value)]; }
      }
      tables, memberships, signals := t, seats, recorded;
      return Ok(status);
    }

    /** POST /v1/bookings/:id/decline */
    method Decline(user: Id, id: Id, reason: string, now: int) returns (result: Result<BookingStatus, AppError>)
      requires Consistent(State())
      modifies this
      ensures Consistent(State())
      ensures match ProviderRefusal(old(tables), user, id, now)
              case Some(error) => result == Err(error) && State() == old(State())
              case None =>
                id in old(tables).bookings && old(tables).bookings[id].allocation in old(tables).allocations &&
                result == Ok(BookingDeclined) &&
                State() == AfterRelease(old(State()), id, BookingDeclined, Declined, Some(reason), now)
      ensures result.Ok? <==> MayAnswer(old(tables), user, id, now)
      ensures result.Ok? ==> DeclinedRows(old(State()), State(), id, reason, now)
    {
      GuardsPassIff(tables, user, Actor(0, Citizen, None, false), id, now);
      if id in tables.bookings && tables.bookings[id].status == Held { ReleaseLeavesRows(State(), id, reason, now); }
      var locked := LockBooking(tables, id);
      if locked.None? { return Err(BookingNotFound); }
      LockFinds(tables, id);
      if locked.value.providerUser != user { return Err(Forbidden); }
      if locked.value.allocationStatus != Assigned { return Err(AllocationNotActive); }
      result := Release(locked.value, BookingDeclined, Declined, Some(reason), now);
    }

    /** POST /v1/bookings/:id/cancel */
    method Cancel(actor: Actor, id: Id, now: int) returns (result: Result<BookingStatus, AppError>)
      requires Consistent(State())
      modifies this
      ensures Consistent(State())
      ensures match CancelRefusal(old(tables), actor, id, now)
              case Some(error) => result == Err(error) && State() == old(State())
              case None =>
                id in old(tables).bookings && old(tables).bookings[id].allocation in old(tables).allocations &&
                result == Ok(BookingCancelled) &&
                State() == AfterRelease(old(State()), id, BookingCancelled, Cancelled, None, now)
      ensures result.Ok? <==> MayCancel(old(tables), actor, id, now)
      ensures result.Ok? ==> CancelledRows(old(State()), State(), id, now)
    {
      GuardsPassIff(tables, 0, actor, id, now);
      if id in tables.bookings && tables.bookings[id].status == Held { ReleaseLeavesRows(State(), id, "", now); }
      var locked := LockBooking(tables, id);
      if locked.None? { return Err(BookingNotFound); }
      LockFinds(tables, id);
      if actor.kind == Operator && !actor.delegated { return Err(Forbidden); }
      if !OwnsBooking(actor, locked.value) { return Err(Forbidden); }
      if locked.value.allocationStatus != Assigned { return Err(AllocationNotActive); }
      if locked.value.status in {Confirmed, Scheduled} { return Err(CancellationPolicyNotConfigured); }
      result := Release(locked.value, BookingCancelled, Cancelled, None, now);
    }
  }
}
