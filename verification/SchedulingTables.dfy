/** The allocation, booking and matter tables: their constraints, their triggers, and what every statement that
    PostgreSQL lets through keeps. */
module SchedulingTables {
  import opened Sequences

  type Id = nat

  // ---- Rows ----

  datatype AllocationMode = CitizenChoice | Rotation
  datatype AllocationStatus = Assigned | Declined | Cancelled | Completed

  datatype Allocation = Allocation(need: Id, provider: Id, mode: AllocationMode, roster: Option<Id>, seed: Option<Id>,
                                   position: Option<nat>, status: AllocationStatus, endedAt: Option<int>,
                                   declineReason: Option<string>)

  datatype BookingStatus = Held | Confirmed | Scheduled | BookingDeclined | BookingCancelled

  /** The half-open slot [from, until) with finite ends. */
  datatype Slot = Slot(from: int, until: int)

  datatype Booking = Booking(need: Id, allocation: Id, provider: Id, citizen: Id, slot: Slot, status: BookingStatus,
                             createdAt: int, updatedAt: int)

  datatype MatterStatus = Open | Closed

  datatype Matter = Matter(allocation: Id, provider: Id, citizen: Id, status: MatterStatus, openedAt: int,
                           closedAt: Option<int>, closeReason: Option<string>)

  /** needs maps a need to its citizen, providers a provider to its user. */
  datatype Tables = Tables(needs: map<Id, Id>, providers: map<Id, Id>, allocations: map<Id, Allocation>,
                           bookings: map<Id, Booking>, matters: map<Id, Matter>)

  datatype DbError = CheckViolation | UniqueViolation | ExclusionViolation | ForeignKeyViolation | ImmutableViolation

  // ---- CHECK constraints ----

  predicate Active(status: BookingStatus) {
    status in {Held, Confirmed, Scheduled}
  }

  predicate Accepted(status: BookingStatus) {
    status in {Confirmed, Scheduled}
  }

  predicate AllocationShape(a: Allocation) {
    && (a.mode == Rotation <==> a.roster.Some?)
    && (a.mode == CitizenChoice ==> a.seed.Some?)
    && (a.position.Some? ==> a.position.value > 0)
  }

  predicate BookingShape(b: Booking) {
    b.slot.from < b.slot.until && b.updatedAt >= b.createdAt
  }

  /** btrim strips spaces only. */
  predicate BlankReason(s: string) {
    forall i :: 0 <= i < |s| ==> s[i] == ' '
  }

  predicate MatterShape(m: Matter) {
    match m.status
    case Open => m.closedAt == None && m.closeReason == None
    case Closed =>
      && m.closedAt.Some? && m.closeReason.Some? && !BlankReason(m.closeReason.value)
      && m.closedAt.value >= m.openedAt
  }

  // ---- Uniqueness and exclusion ----

  predicate Overlap(s: Slot, t: Slot) {
    s.from < t.until && t.from < s.until
  }

  /** Two rows the exclusion constraint does not allow beside each other. */
  predicate Clash(b: Booking, c: Booking) {
    b.provider == c.provider && Active(b.status) && Active(c.status) && Overlap(b.slot, c.slot)
  }

  predicate NeedTaken(allocations: map<Id, Allocation>, need: Id, except: Id) {
    exists a :: a in allocations && a != except && allocations[a].need == need && allocations[a].status == Assigned
  }

  predicate AllocationBooked(bookings: map<Id, Booking>, allocation: Id, except: Id) {
    exists b :: b in bookings && b != except && bookings[b].allocation == allocation
  }

  predicate Referenced(bookings: map<Id, Booking>, allocation: Id) {
    exists b :: b in bookings && bookings[b].allocation == allocation
  }

  predicate SlotTaken(bookings: map<Id, Booking>, row: Booking, except: Id) {
    exists b :: b in bookings && b != except && Clash(bookings[b], row)
  }

  predicate AllocationHasMatter(matters: map<Id, Matter>, allocation: Id, except: Id) {
    exists m :: m in matters && m != except && matters[m].allocation == allocation
  }

  // ---- Queries of the triggers ----

  predicate AssignedTo(allocations: map<Id, Allocation>, b: Booking) {
    b.allocation in allocations && allocations[b.allocation].need == b.need &&
    allocations[b.allocation].provider == b.provider && allocations[b.allocation].status == Assigned
  }

  predicate BookedFor(b: Booking, allocation: Id, provider: Id, citizen: Id) {
    b.allocation == allocation && b.provider == provider && b.citizen == citizen
  }

  predicate HasBooking(bookings: map<Id, Booking>, allocation: Id, provider: Id, citizen: Id) {
    exists b :: b in bookings && BookedFor(bookings[b], allocation, provider, citizen)
  }

  predicate HasAcceptedBooking(bookings: map<Id, Booking>, allocation: Id, provider: Id, citizen: Id) {
    exists b :: b in bookings && BookedFor(bookings[b], allocation, provider, citizen) && Accepted(bookings[b].status)
  }

  predicate HasActiveBooking(bookings: map<Id, Booking>, allocation: Id) {
    exists b :: b in bookings && bookings[b].allocation == allocation && Active(bookings[b].status)
  }

  predicate HasOpenMatter(matters: map<Id, Matter>, allocation: Id) {
    exists m :: m in matters && matters[m].allocation == allocation && matters[m].status == Open
  }

  /** The join of protect_active_scheduling_allocation: an accepted booking with a closed matter of the same parties. */
  predicate ServedAndClosed(bookings: map<Id, Booking>, matters: map<Id, Matter>, allocation: Id) {
    exists b, m :: b in bookings && m in matters && bookings[b].allocation == allocation &&
                   Accepted(bookings[b].status) &&
                   BookedFor(bookings[b], matters[m].allocation, matters[m].provider, matters[m].citizen) &&
                   matters[m].status == Closed
  }

  // ---- Statements ----

  function InsertNeed(t: Tables, id: Id, citizen: Id): Result<Tables, DbError> {
    if id in t.needs then Err(UniqueViolation) else Ok(t.(needs := t.needs[id := citizen]))
  }

  function InsertProvider(t: Tables, id: Id, user: Id): Result<Tables, DbError> {
    if id in t.providers then Err(UniqueViolation) else Ok(t.(providers := t.providers[id := user]))
  }

  function InsertAllocation(t: Tables, id: Id, row: Allocation): Result<Tables, DbError> {
    if !AllocationShape(row) then Err(CheckViolation)
    else if id in t.allocations || (row.status == Assigned && NeedTaken(t.allocations, row.need, id)) then
      Err(UniqueViolation)
    else if row.need !in t.needs || row.provider !in t.providers then Err(ForeignKeyViolation)
    else Ok(t.(allocations := t.allocations[id := row]))
  }

  /** protect_active_scheduling_allocation */
  function AllocationGuard(t: Tables, id: Id, was: Allocation, row: Allocation): Result<(), DbError> {
    if row.status == was.status || row.status == Assigned then Ok(())
    else if was.status == Assigned && row.status == Completed && ServedAndClosed(t.bookings, t.matters, id) then Ok(())
    else if HasActiveBooking(t.bookings, id) then Err(CheckViolation)
    else if HasOpenMatter(t.matters, id) then Err(CheckViolation)
    else Ok(())
  }

  /** UPDATE of one allocation; a row that is not there is not an error, it is just not updated. */
  function UpdateAllocation(t: Tables, id: Id, row: Allocation): Result<Tables, DbError> {
    if id !in t.allocations then Ok(t)
    else
      var was := t.allocations[id];
      var _ :- AllocationGuard(t, id, was, row);
      if !AllocationShape(row) then Err(CheckViolation)
      else if row.status == Assigned && NeedTaken(t.allocations, row.need, id) then Err(UniqueViolation)
      else if row.need !in t.needs || row.provider !in t.providers then Err(ForeignKeyViolation)
      else if (row.need != was.need || row.provider != was.provider) && Referenced(t.bookings, id) then
        Err(ForeignKeyViolation)
      else Ok(t.(allocations := t.allocations[id := row]))
  }

  function InsertBooking(t: Tables, id: Id, row: Booking): Result<Tables, DbError> {
    if row.status != Held || !AssignedTo(t.allocations, row) || !BookingShape(row) then Err(CheckViolation)
    else if id in t.bookings || AllocationBooked(t.bookings, row.allocation, id) then Err(UniqueViolation)
    else if SlotTaken(t.bookings, row, id) then Err(ExclusionViolation)
    else if row.need !in t.needs || t.needs[row.need] != row.citizen then Err(ForeignKeyViolation)
    else Ok(t.(bookings := t.bookings[id := row]))
  }

  /** enforce_booking_lifecycle on UPDATE */
  function BookingGuard(t: Tables, was: Booking, row: Booking): Result<(), DbError> {
    if row.(status := was.status, updatedAt := was.updatedAt) != was then Err(ImmutableViolation)
    else if row.updatedAt < was.updatedAt then Err(CheckViolation)
    else if was.status == Held && row.status in {Confirmed, BookingDeclined, BookingCancelled} &&
            AssignedTo(t.allocations, was) then
      Ok(())
    else Err(CheckViolation)
  }

  function UpdateBooking(t: Tables, id: Id, row: Booking): Result<Tables, DbError> {
    if id !in t.bookings then Ok(t)
    else
      var _ :- BookingGuard(t, t.bookings[id], row);
      if !BookingShape(row) then Err(CheckViolation)
      else if SlotTaken(t.bookings, row, id) then Err(ExclusionViolation)
      else Ok(t.(bookings := t.bookings[id := row]))
  }

  function InsertMatter(t: Tables, id: Id, row: Matter): Result<Tables, DbError> {
    if row.status != Open then Err(CheckViolation)
    else if !HasBooking(t.bookings, row.allocation, row.provider, row.citizen) then Err(ForeignKeyViolation)
    else if !HasAcceptedBooking(t.bookings, row.allocation, row.provider, row.citizen) then Err(CheckViolation)
    else if row.allocation !in t.allocations || t.allocations[row.allocation].provider != row.provider ||
            t.allocations[row.allocation].status != Assigned || !MatterShape(row) then Err(CheckViolation)
    else if id in t.matters || AllocationHasMatter(t.matters, row.allocation, id) then Err(UniqueViolation)
    else Ok(t.(matters := t.matters[id := row]))
  }

  function UpdateMatter(t: Tables, id: Id, row: Matter): Result<Tables, DbError> {
    if id !in t.matters then Ok(t)
    else
      var was := t.matters[id];
      if row.(status := was.status, closedAt := was.closedAt, closeReason := was.closeReason) != was then
        Err(ImmutableViolation)
      else if was.status == Closed && row.status != Closed then Err(CheckViolation)
      else if !MatterShape(row) then Err(CheckViolation)
      else Ok(t.(matters := t.matters[id := row]))
  }

  // ---- The cross-table invariant ----

  predicate AllocationOk(t: Tables, a: Allocation) {
    AllocationShape(a) && a.need in t.needs && a.provider in t.providers
  }

  predicate HasClosedMatter(matters: map<Id, Matter>, allocation: Id) {
    exists m :: m in matters && matters[m].allocation == allocation && matters[m].status == Closed
  }

  /** A held booking keeps its allocation assigned; an accepted one too, unless the allocation was completed after
      its matter was closed. Whatever its status, it names its allocation's need and provider and the need's citizen. */
  predicate BookingOk(t: Tables, b: Booking) {
    && BookingShape(b)
    && b.allocation in t.allocations
    && t.allocations[b.allocation].need == b.need && t.allocations[b.allocation].provider == b.provider
    && b.need in t.needs && t.needs[b.need] == b.citizen
    && (b.status == Held ==> t.allocations[b.allocation].status == Assigned)
    && (Accepted(b.status) ==>
          || t.allocations[b.allocation].status == Assigned
          || (t.allocations[b.allocation].status == Completed && HasClosedMatter(t.matters, b.allocation)))
  }

  /** A matter belongs to an accepted booking of the same parties, and while it is open its allocation is assigned. */
  predicate MatterOk(t: Tables, m: Matter) {
    && MatterShape(m)
    && HasAcceptedBooking(t.bookings, m.allocation, m.provider, m.citizen)
    && (m.status == Open ==> m.allocation in t.allocations && t.allocations[m.allocation].status == Assigned)
  }

  predicate AllocationsOk(t: Tables) {
    forall a {:trigger AllocationOk(t, t.allocations[a])} :: a in t.allocations ==> AllocationOk(t, t.allocations[a])
  }

  predicate BookingsOk(t: Tables) {
    forall b {:trigger BookingOk(t, t.bookings[b])} :: b in t.bookings ==> BookingOk(t, t.bookings[b])
  }

  predicate MattersOk(t: Tables) {
    forall m {:trigger MatterOk(t, t.matters[m])} :: m in t.matters ==> MatterOk(t, t.matters[m])
  }

  predicate OneActivePerNeed(allocations: map<Id, Allocation>) {
    forall a, c :: a in allocations && c in allocations && a != c &&
                   allocations[a].status == allocations[c].status == Assigned ==>
      allocations[a].need != allocations[c].need
  }

  predicate OneBookingPerAllocation(bookings: map<Id, Booking>) {
    forall b, c :: b in bookings && c in bookings && b != c ==> bookings[b].allocation != bookings[c].allocation
  }

  predicate OneMatterPerAllocation(matters: map<Id, Matter>) {
    forall m, n :: m in matters && n in matters && m != n ==> matters[m].allocation != matters[n].allocation
  }

  predicate NoDoubleBooking(bookings: map<Id, Booking>) {
    forall b, c :: b in bookings && c in bookings && b != c ==> !Clash(bookings[b], bookings[c])
  }

  predicate Sound(t: Tables) {
    && AllocationsOk(t) && BookingsOk(t) && MattersOk(t)
    && OneActivePerNeed(t.allocations) && OneBookingPerAllocation(t.bookings) && OneMatterPerAllocation(t.matters)
    && NoDoubleBooking(t.bookings)
  }

  // ---- Runs ----

  datatype Statement =
    | NewNeed(id: Id, citizen: Id)
    | NewProvider(id: Id, user: Id)
    | NewAllocation(id: Id, allocation: Allocation)
    | SetAllocation(id: Id, allocation: Allocation)
    | NewBooking(id: Id, booking: Booking)
    | SetBooking(id: Id, booking: Booking)
    | NewMatter(id: Id, matter: Matter)
    | SetMatter(id: Id, matter: Matter)

  function Execute(t: Tables, s: Statement): Result<Tables, DbError> {
    match s
    case NewNeed(id, citizen) => InsertNeed(t, id, citizen)
    case NewProvider(id, user) => InsertProvider(t, id, user)
    case NewAllocation(id, row) => InsertAllocation(t, id, row)
    case SetAllocation(id, row) => UpdateAllocation(t, id, row)
    case NewBooking(id, row) => InsertBooking(t, id, row)
    case SetBooking(id, row) => UpdateBooking(t, id, row)
    case NewMatter(id, row) => InsertMatter(t, id, row)
    case SetMatter(id, row) => UpdateMatter(t, id, row)
  }

  /** A refused statement leaves the tables as they were. */
  function Run(t: Tables, statements: seq<Statement>): Tables
    decreases |statements|
  {
    if statements == [] then t
    else
      var r := Execute(t, statements[0]);
      Run(if r.Ok? then r.value else t, statements[1..])
  }

  const EMPTY := Tables(map[], map[], map[], map[], map[])

  // ---- Every accepted statement keeps the invariant ----

  lemma NeedKeeps(t: Tables, id: Id, citizen: Id)
    requires Sound(t) && InsertNeed(t, id, citizen).Ok?
    ensures Sound(InsertNeed(t, id, citizen).value)
  {
    var u := InsertNeed(t, id, citizen).value;
    forall a | a in u.allocations
      ensures AllocationOk(u, u.allocations[a])
    {
      assert AllocationOk(t, t.allocations[a]);
    }
    forall b | b in u.bookings ensures BookingOk(u, u.bookings[b]) { assert BookingOk(t, t.bookings[b]); }
    forall m | m in u.matters ensures MatterOk(u, u.matters[m]) { assert MatterOk(t, t.matters[m]); }
  }

  lemma ProviderKeeps(t: Tables, id: Id, user: Id)
    requires Sound(t) && InsertProvider(t, id, user).Ok?
    ensures Sound(InsertProvider(t, id, user).value)
  {
    var u := InsertProvider(t, id, user).value;
    forall a | a in u.allocations
      ensures AllocationOk(u, u.allocations[a])
    {
      assert AllocationOk(t, t.allocations[a]);
    }
    forall b | b in u.bookings ensures BookingOk(u, u.bookings[b]) { assert BookingOk(t, t.bookings[b]); }
    forall m | m in u.matters ensures MatterOk(u, u.matters[m]) { assert MatterOk(t, t.matters[m]); }
  }

  /** Storing an allocation row under id leaves every other table's promises as they were, given what the row owes
      them. */
  lemma StoredAllocation(t: Tables, id: Id, row: Allocation)
    requires Sound(t) && AllocationOk(t, row)
    requires row.status == Assigned ==> !NeedTaken(t.allocations, row.need, id)
    requires id in t.allocations || !Referenced(t.bookings, id)
    requires id in t.allocations && Referenced(t.bookings, id) ==> SameParties(t.allocations[id], row)
    requires id in t.allocations && row.status != Assigned && row.status != t.allocations[id].status ==>
               !HasOpenMatter(t.matters, id) &&
               (!HasActiveBooking(t.bookings, id) ||
                (row.status == Completed && ServedAndClosed(t.bookings, t.matters, id)))
    ensures Sound(t.(allocations := t.allocations[id := row]))
  {
    var u := t.(allocations := t.allocations[id := row]);
    forall a | a in u.allocations
      ensures AllocationOk(u, u.allocations[a])
    {
      if a != id { assert AllocationOk(t, t.allocations[a]); }
    }
    forall b | b in u.bookings
      ensures BookingOk(u, u.bookings[b])
    {
      assert BookingOk(t, t.bookings[b]);
      if t.bookings[b].allocation == id { BookingStaysOk(t, id, row, b); }
    }
    forall m | m in u.matters
      ensures MatterOk(u, u.matters[m])
    {
      assert MatterOk(t, t.matters[m]);
      if t.matters[m].allocation == id && t.matters[m].status == Open { assert HasOpenMatter(t.matters, id); }
    }
  }

  predicate SameParties(a: Allocation, c: Allocation) {
    a.need == c.need && a.provider == c.provider
  }

  lemma BookingStaysOk(t: Tables, id: Id, row: Allocation, b: Id)
    requires Sound(t) && b in t.bookings && t.bookings[b].allocation == id && id in t.allocations
    requires BookingOk(t, t.bookings[b]) && SameParties(t.allocations[id], row)
    requires row.status != Assigned && row.status != t.allocations[id].status ==>
               !HasActiveBooking(t.bookings, id) ||
               (row.status == Completed && ServedAndClosed(t.bookings, t.matters, id))
    ensures BookingOk(t.(allocations := t.allocations[id := row]), t.bookings[b])
  {
    if Active(t.bookings[b].status) && row.status != Assigned && row.status != t.allocations[id].status {
      assert HasActiveBooking(t.bookings, id);
      ServedIsClosed(t.bookings, t.matters, id, b);
    }
  }

  lemma ServedIsClosed(bookings: map<Id, Booking>, matters: map<Id, Matter>, allocation: Id, b: Id)
    requires ServedAndClosed(bookings, matters, allocation) && OneBookingPerAllocation(bookings)
    requires b in bookings && bookings[b].allocation == allocation
    ensures Accepted(bookings[b].status) && HasClosedMatter(matters, allocation)
  {
    var c, m :| c in bookings && m in matters && bookings[c].allocation == allocation && Accepted(bookings[c].status) &&
                BookedFor(bookings[c], matters[m].allocation, matters[m].provider, matters[m].citizen) &&
                matters[m].status == Closed;
    assert c == b;
  }

  lemma NewAllocationKeeps(t: Tables, id: Id, row: Allocation)
    requires Sound(t) && InsertAllocation(t, id, row).Ok?
    ensures Sound(InsertAllocation(t, id, row).value)
  {
    forall b | b in t.bookings
      ensures t.bookings[b].allocation in t.allocations
    {
      assert BookingOk(t, t.bookings[b]);
    }
    StoredAllocation(t, id, row);
  }

  lemma SetAllocationKeeps(t: Tables, id: Id, row: Allocation)
    requires Sound(t) && UpdateAllocation(t, id, row).Ok?
    ensures Sound(UpdateAllocation(t, id, row).value)
  {
    if id in t.allocations {
      if ServedAndClosed(t.bookings, t.matters, id) { ServedHasNoOpenMatter(t, id); }
      StoredAllocation(t, id, row);
    }
  }

  lemma ServedHasNoOpenMatter(t: Tables, id: Id)
    requires OneMatterPerAllocation(t.matters) && ServedAndClosed(t.bookings, t.matters, id)
    ensures !HasOpenMatter(t.matters, id)
  {
  }

  /** Storing a booking that is new, or that replaces a held one of the same parties and slot. */
  lemma StoredBooking(t: Tables, id: Id, row: Booking)
    requires Sound(t) && BookingOk(t, row) && !SlotTaken(t.bookings, row, id)
    requires !AllocationBooked(t.bookings, row.allocation, id)
    requires id in t.bookings ==> t.bookings[id].status == Held
    ensures Sound(t.(bookings := t.bookings[id := row]))
  {
    var u := t.(bookings := t.bookings[id := row]);
    forall a | a in u.allocations
      ensures AllocationOk(u, u.allocations[a])
    {
      assert AllocationOk(t, t.allocations[a]);
    }
    forall b | b in u.bookings
      ensures BookingOk(u, u.bookings[b])
    {
      if b != id { assert BookingOk(t, t.bookings[b]); }
    }
    forall m | m in u.matters
      ensures MatterOk(u, u.matters[m])
    {
      var x := t.matters[m];
      assert MatterOk(t, x);
      var b :| b in t.bookings && BookedFor(t.bookings[b], x.allocation, x.provider, x.citizen) &&
               Accepted(t.bookings[b].status);
      assert b != id && u.bookings[b] == t.bookings[b];
    }
  }

  lemma NewBookingKeeps(t: Tables, id: Id, row: Booking)
    requires Sound(t) && InsertBooking(t, id, row).Ok?
    ensures Sound(InsertBooking(t, id, row).value)
  {
    StoredBooking(t, id, row);
  }

  lemma SetBookingKeeps(t: Tables, id: Id, row: Booking)
    requires Sound(t) && UpdateBooking(t, id, row).Ok?
    ensures Sound(UpdateBooking(t, id, row).value)
  {
    if id in t.bookings {
      assert BookingOk(t, t.bookings[id]);
      StoredBooking(t, id, row);
    }
  }

  lemma StoredMatter(t: Tables, id: Id, row: Matter)
    requires Sound(t) && MatterOk(t, row) && !AllocationHasMatter(t.matters, row.allocation, id)
    requires id in t.matters ==>
               row.allocation == t.matters[id].allocation && (t.matters[id].status == Closed ==> row.status == Closed)
    ensures Sound(t.(matters := t.matters[id := row]))
  {
    var u := t.(matters := t.matters[id := row]);
    forall a | a in u.allocations
      ensures AllocationOk(u, u.allocations[a])
    {
      assert AllocationOk(t, t.allocations[a]);
    }
    forall b | b in u.bookings
      ensures BookingOk(u, u.bookings[b])
    {
      assert BookingOk(t, t.bookings[b]);
      var allocation := t.bookings[b].allocation;
      if HasClosedMatter(t.matters, allocation) {
        var m :| m in t.matters && t.matters[m].allocation == allocation && t.matters[m].status == Closed;
        assert u.matters[m].status == Closed && u.matters[m].allocation == allocation;
      }
    }
    forall m | m in u.matters
      ensures MatterOk(u, u.matters[m])
    {
      if m != id { assert MatterOk(t, t.matters[m]); }
    }
  }

  lemma NewMatterKeeps(t: Tables, id: Id, row: Matter)
    requires Sound(t) && InsertMatter(t, id, row).Ok?
    ensures Sound(InsertMatter(t, id, row).value)
  {
    StoredMatter(t, id, row);
  }

  lemma SetMatterKeeps(t: Tables, id: Id, row: Matter)
    requires Sound(t) && UpdateMatter(t, id, row).Ok?
    ensures Sound(UpdateMatter(t, id, row).value)
  {
    if id in t.matters {
      assert MatterOk(t, t.matters[id]);
      StoredMatter(t, id, row);
    }
  }

  lemma StatementKeeps(t: Tables, s: Statement)
    requires Sound(t) && Execute(t, s).Ok?
    ensures Sound(Execute(t, s).value)
  {
    match s
    case NewNeed(id, citizen) => NeedKeeps(t, id, citizen);
    case NewProvider(id, user) => ProviderKeeps(t, id, user);
    case NewAllocation(id, row) => NewAllocationKeeps(t, id, row);
    case SetAllocation(id, row) => SetAllocationKeeps(t, id, row);
    case NewBooking(id, row) => NewBookingKeeps(t, id, row);
    case SetBooking(id, row) => SetBookingKeeps(t, id, row);
    case NewMatter(id, row) => NewMatterKeeps(t, id, row);
    case SetMatter(id, row) => SetMatterKeeps(t, id, row);
  }

  lemma {:induction false} RunKeeps(t: Tables, statements: seq<Statement>)
    requires Sound(t)
    ensures Sound(Run(t, statements))
    decreases |statements|
  {
    if statements != [] {
      var r := Execute(t, statements[0]);
      if r.Ok? { StatementKeeps(t, statements[0]); }
      RunKeeps(if r.Ok? then r.value else t, statements[1..]);
    }
  }

  lemma EmptyIsSound()
    ensures Sound(EMPTY)
  {
  }

  /** What every reachable state promises about a booking, and about two. */
  lemma EveryBookingIsConsistent(statements: seq<Statement>, b: Id, c: Id)
    requires b in Run(EMPTY, statements).bookings
    ensures var t := Run(EMPTY, statements);
            var booking := t.bookings[b];
            && booking.allocation in t.allocations
            && t.allocations[booking.allocation].need == booking.need
            && t.allocations[booking.allocation].provider == booking.provider
            && booking.need in t.needs && t.needs[booking.need] == booking.citizen
            && (booking.status == Held ==> t.allocations[booking.allocation].status == Assigned)
            && (booking.status in {Confirmed, Scheduled} && t.allocations[booking.allocation].status != Assigned ==>
                  t.allocations[booking.allocation].status == Completed &&
                  exists m :: m in t.matters && t.matters[m].allocation == booking.allocation &&
                              t.matters[m].status == Closed)
            && (c in t.bookings && b != c ==> booking.allocation != t.bookings[c].allocation)
            && (c in t.bookings && b != c && booking.provider == t.bookings[c].provider &&
                booking.status in {Held, Confirmed, Scheduled} &&
                t.bookings[c].status in {Held, Confirmed, Scheduled} ==>
                  booking.slot.until <= t.bookings[c].slot.from || t.bookings[c].slot.until <= booking.slot.from)
  {
    EmptyIsSound();
    RunKeeps(EMPTY, statements);
    var t := Run(EMPTY, statements);
    assert BookingOk(t, t.bookings[b]);
    assert c in t.bookings && b != c ==> !Clash(t.bookings[b], t.bookings[c]);
  }

  /** What every reachable state promises about a matter, and about two. */
  lemma EveryMatterIsConsistent(statements: seq<Statement>, m: Id, n: Id)
    requires m in Run(EMPTY, statements).matters
    ensures var t := Run(EMPTY, statements);
            var matter := t.matters[m];
            && (exists b :: b in t.bookings && t.bookings[b].allocation == matter.allocation &&
                            t.bookings[b].provider == matter.provider && t.bookings[b].citizen == matter.citizen &&
                            t.bookings[b].status in {Confirmed, Scheduled})
            && (matter.status == Open ==>
                  matter.allocation in t.allocations && t.allocations[matter.allocation].status == Assigned)
            && (n in t.matters && m != n ==> matter.allocation != t.matters[n].allocation)
  {
    EmptyIsSound();
    RunKeeps(EMPTY, statements);
    var t := Run(EMPTY, statements);
    assert MatterOk(t, t.matters[m]);
    var b :| b in t.bookings && Accepted(t.bookings[b].status) &&
             BookedFor(t.bookings[b], t.matters[m].allocation, t.matters[m].provider, t.matters[m].citizen);
  }

  /** A matter, its booking, its allocation and its need agree on who is involved, and the allocation is in force. */
  lemma PartiesAgree(t: Tables, m: Id)
    requires Sound(t) && m in t.matters
    ensures var matter := t.matters[m];
            && matter.allocation in t.allocations
            && t.allocations[matter.allocation].provider == matter.provider
            && t.allocations[matter.allocation].need in t.needs
            && t.needs[t.allocations[matter.allocation].need] == matter.citizen
            && t.allocations[matter.allocation].status in {Assigned, Completed}
  {
    var x := t.matters[m];
    assert MatterOk(t, x);
    var b :| b in t.bookings && BookedFor(t.bookings[b], x.allocation, x.provider, x.citizen) &&
             Accepted(t.bookings[b].status);
    assert BookingOk(t, t.bookings[b]);
  }
}
