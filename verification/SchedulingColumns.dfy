/** The scheduling statements column by column: which rows PostgreSQL accepts, and that nothing else is refused. */
module SchedulingColumns {
  import opened Sequences
  import opened SchedulingTables

  predicate InForce(status: BookingStatus) {
    status == Held || status == Confirmed || status == Scheduled
  }

  /** Another booking of the provider in force at some common instant. */
  predicate Taken(bookings: map<Id, Booking>, row: Booking, except: Id) {
    exists b :: b in bookings && b != except && bookings[b].provider == row.provider && InForce(bookings[b].status) &&
                !(bookings[b].slot.until <= row.slot.from || row.slot.until <= bookings[b].slot.from)
  }

  lemma TakenIsSlotTaken(bookings: map<Id, Booking>, row: Booking, except: Id)
    requires InForce(row.status)
    ensures Taken(bookings, row, except) <==> SlotTaken(bookings, row, except)
  {
    forall b
      ensures b in bookings && b != except && bookings[b].provider == row.provider && InForce(bookings[b].status) &&
              !(bookings[b].slot.until <= row.slot.from || row.slot.until <= bookings[b].slot.from) <==>
              b in bookings && b != except && Clash(bookings[b], row)
    {
    }
  }

  /** A booking starts as HELD, for the need, provider and citizen of an ASSIGNED allocation without a booking, in a
      slot that does not overlap another one of the provider in force. */
  lemma BookingInsertedIff(t: Tables, id: Id, row: Booking)
    ensures InsertBooking(t, id, row).Ok? <==>
            && row.status == Held && row.slot.from < row.slot.until && row.createdAt <= row.updatedAt
            && row.allocation in t.allocations && t.allocations[row.allocation].status == Assigned
            && t.allocations[row.allocation].need == row.need && t.allocations[row.allocation].provider == row.provider
            && row.need in t.needs && t.needs[row.need] == row.citizen
            && id !in t.bookings && (forall b :: b in t.bookings ==> t.bookings[b].allocation != row.allocation)
            && !Taken(t.bookings, row, id)
    ensures InsertBooking(t, id, row).Ok? ==> InsertBooking(t, id, row).value == t.(bookings := t.bookings[id := row])
  {
    if row.status == Held { TakenIsSlotTaken(t.bookings, row, id); }
  }

  /** A HELD booking of an ASSIGNED allocation can be confirmed, declined or cancelled, not backwards in time; none of
      its other columns, and no other booking, can change. */
  lemma BookingUpdatedIff(t: Tables, id: Id, row: Booking)
    requires id in t.bookings
    ensures UpdateBooking(t, id, row).Ok? <==>
            var was := t.bookings[id];
            && row == was.(status := row.status, updatedAt := row.updatedAt) && was.updatedAt <= row.updatedAt
            && was.status == Held && row.status in {Confirmed, BookingDeclined, BookingCancelled}
            && was.allocation in t.allocations && t.allocations[was.allocation].status == Assigned
            && t.allocations[was.allocation].need == was.need && t.allocations[was.allocation].provider == was.provider
            && row.slot.from < row.slot.until && row.createdAt <= row.updatedAt
            && (row.status == Confirmed ==> !Taken(t.bookings, row, id))
    ensures UpdateBooking(t, id, row).Ok? ==> UpdateBooking(t, id, row).value == t.(bookings := t.bookings[id := row])
  {
    if row.status == Confirmed { TakenIsSlotTaken(t.bookings, row, id); }
  }

  /** The booking was accepted for exactly these parties. */
  predicate AcceptedFor(bookings: map<Id, Booking>, allocation: Id, provider: Id, citizen: Id) {
    exists b :: b in bookings && bookings[b].allocation == allocation && bookings[b].provider == provider &&
                bookings[b].citizen == citizen && (bookings[b].status == Confirmed || bookings[b].status == Scheduled)
  }

  lemma AcceptedForIsAccepted(bookings: map<Id, Booking>, allocation: Id, provider: Id, citizen: Id)
    ensures AcceptedFor(bookings, allocation, provider, citizen) <==>
            HasAcceptedBooking(bookings, allocation, provider, citizen)
  {
    forall b | b in bookings
      ensures bookings[b].allocation == allocation && bookings[b].provider == provider &&
              bookings[b].citizen == citizen &&
              (bookings[b].status == Confirmed || bookings[b].status == Scheduled) <==>
              BookedFor(bookings[b], allocation, provider, citizen) && Accepted(bookings[b].status)
    {
    }
  }

  /** A matter starts OPEN, without a close, for an accepted booking of its parties on an ASSIGNED allocation of its
      provider that has no matter yet. */
  lemma MatterInsertedIff(t: Tables, id: Id, row: Matter)
    ensures InsertMatter(t, id, row).Ok? <==>
            && row.status == Open && row.closedAt == None && row.closeReason == None
            && AcceptedFor(t.bookings, row.allocation, row.provider, row.citizen)
            && row.allocation in t.allocations && t.allocations[row.allocation].status == Assigned
            && t.allocations[row.allocation].provider == row.provider
            && id !in t.matters && (forall m :: m in t.matters ==> t.matters[m].allocation != row.allocation)
    ensures InsertMatter(t, id, row).Ok? ==> InsertMatter(t, id, row).value == t.(matters := t.matters[id := row])
  {
    AcceptedForIsAccepted(t.bookings, row.allocation, row.provider, row.citizen);
    if HasAcceptedBooking(t.bookings, row.allocation, row.provider, row.citizen) {
      assert HasBooking(t.bookings, row.allocation, row.provider, row.citizen);
    }
  }

  /** A matter's close columns may change, once and consistently: an OPEN one has none, a CLOSED one a time not before
      its opening and a reason that is not blank, and it is not opened again. */
  lemma MatterUpdatedIff(t: Tables, id: Id, row: Matter)
    requires id in t.matters
    ensures UpdateMatter(t, id, row).Ok? <==>
            var was := t.matters[id];
            && row == was.(status := row.status, closedAt := row.closedAt, closeReason := row.closeReason)
            && (was.status == Closed ==> row.status == Closed)
            && (row.status == Open ==> row.closedAt == None && row.closeReason == None)
            && (row.status == Closed ==> row.closedAt.Some? && row.openedAt <= row.closedAt.value)
            && (row.status == Closed ==> row.closeReason.Some? &&
                                         exists i :: 0 <= i < |row.closeReason.value| &&
                                                     row.closeReason.value[i] != ' ')
    ensures UpdateMatter(t, id, row).Ok? ==> UpdateMatter(t, id, row).value == t.(matters := t.matters[id := row])
  {
  }

  /** The columns of an allocation fit its mode: a rotation has a roster and nothing else has, a choice has a seed, and
      a position counts from one. */
  predicate FitsMode(a: Allocation) {
    && (a.mode == Rotation ==> a.roster != None) && (a.mode == CitizenChoice ==> a.roster == None && a.seed != None)
    && a.position != Some(0)
  }

  predicate AssignedElsewhere(allocations: map<Id, Allocation>, need: Id, except: Id) {
    exists a :: a in allocations && a != except && allocations[a].need == need && allocations[a].status == Assigned
  }

  lemma AllocationInsertedIff(t: Tables, id: Id, row: Allocation)
    ensures InsertAllocation(t, id, row).Ok? <==>
            && FitsMode(row) && id !in t.allocations && row.need in t.needs && row.provider in t.providers
            && (row.status == Assigned ==> !AssignedElsewhere(t.allocations, row.need, id))
    ensures InsertAllocation(t, id, row).Ok? ==>
              InsertAllocation(t, id, row).value == t.(allocations := t.allocations[id := row])
  {
  }

  /** An allocation may leave its status only if no booking in force and no open matter hangs on it, or to COMPLETED
      after its accepted booking's matter was closed. */
  predicate MayMove(t: Tables, id: Id, was: Allocation, row: Allocation) {
    || row.status == was.status || row.status == Assigned
    || (was.status == Assigned && row.status == Completed && ClosedAfterBooking(t, id))
    || ((forall b :: b in t.bookings && t.bookings[b].allocation == id ==> !InForce(t.bookings[b].status)) &&
        (forall m :: m in t.matters && t.matters[m].allocation == id ==> t.matters[m].status != Open))
  }

  predicate ClosedAfterBooking(t: Tables, id: Id) {
    exists b, m :: b in t.bookings && m in t.matters && t.bookings[b].allocation == id == t.matters[m].allocation &&
                   t.bookings[b].provider == t.matters[m].provider && t.bookings[b].citizen == t.matters[m].citizen &&
                   (t.bookings[b].status == Confirmed || t.bookings[b].status == Scheduled) &&
                   t.matters[m].status == Closed
  }

  lemma ClosedAfterBookingIsServed(t: Tables, id: Id)
    ensures ClosedAfterBooking(t, id) <==> ServedAndClosed(t.bookings, t.matters, id)
  {
    forall b, m | b in t.bookings && m in t.matters
      ensures t.bookings[b].allocation == id == t.matters[m].allocation &&
              t.bookings[b].provider == t.matters[m].provider && t.bookings[b].citizen == t.matters[m].citizen &&
              (t.bookings[b].status == Confirmed || t.bookings[b].status == Scheduled) &&
              t.matters[m].status == Closed <==>
              t.bookings[b].allocation == id && Accepted(t.bookings[b].status) &&
              BookedFor(t.bookings[b], t.matters[m].allocation, t.matters[m].provider, t.matters[m].citizen) &&
              t.matters[m].status == Closed
    {
    }
  }

  lemma AllocationMayMove(t: Tables, id: Id, was: Allocation, row: Allocation)
    ensures AllocationGuard(t, id, was, row).Ok? <==> MayMove(t, id, was, row)
  {
    ClosedAfterBookingIsServed(t, id);
  }

  lemma AllocationUpdatedIff(t: Tables, id: Id, row: Allocation)
    requires id in t.allocations
    ensures UpdateAllocation(t, id, row).Ok? <==>
            var was := t.allocations[id];
            && MayMove(t, id, was, row) && FitsMode(row) && row.need in t.needs && row.provider in t.providers
            && (row.status == Assigned ==> !AssignedElsewhere(t.allocations, row.need, id))
            && ((row.need == was.need && row.provider == was.provider) ||
                forall b :: b in t.bookings ==> t.bookings[b].allocation != id)
    ensures UpdateAllocation(t, id, row).Ok? ==>
              UpdateAllocation(t, id, row).value == t.(allocations := t.allocations[id := row])
  {
    AllocationMayMove(t, id, t.allocations[id], row);
  }

  // ---- Why a statement is refused ----

  /** The row is as an INSERT trigger and the CHECK constraints want it. */
  predicate BookingFits(t: Tables, row: Booking) {
    && row.status == Held && row.slot.from < row.slot.until && row.createdAt <= row.updatedAt
    && row.allocation in t.allocations && t.allocations[row.allocation].status == Assigned
    && t.allocations[row.allocation].need == row.need && t.allocations[row.allocation].provider == row.provider
  }

  /** A refused booking violates, in this order, a check, a unique key, the exclusion constraint or a foreign key. */
  lemma BookingRefusedAs(t: Tables, id: Id, row: Booking)
    ensures var r, fits := InsertBooking(t, id, row), BookingFits(t, row);
            var known := id in t.bookings || exists b :: b in t.bookings && t.bookings[b].allocation == row.allocation;
            && (r == Err(CheckViolation) <==> !fits)
            && (r == Err(UniqueViolation) <==> fits && known)
            && (r == Err(ExclusionViolation) <==> fits && !known && Taken(t.bookings, row, id))
            && (r == Err(ForeignKeyViolation) <==>
                  fits && !known && !Taken(t.bookings, row, id) &&
                  !(row.need in t.needs && t.needs[row.need] == row.citizen))
            && r != Err(ImmutableViolation)
  {
    if row.status == Held { TakenIsSlotTaken(t.bookings, row, id); }
  }

  /** A changed booking that is not one is refused as such before anything else, and an overlap last. */
  lemma BookingChangeRefusedAs(t: Tables, id: Id, row: Booking)
    requires id in t.bookings
    ensures var r, was := UpdateBooking(t, id, row), t.bookings[id];
            && (r == Err(ImmutableViolation) <==> row != was.(status := row.status, updatedAt := row.updatedAt))
            && (r == Err(ExclusionViolation) ==> row.status == Confirmed && Taken(t.bookings, row, id))
            && r != Err(UniqueViolation) && r != Err(ForeignKeyViolation)
  {
    if row.status == Confirmed { TakenIsSlotTaken(t.bookings, row, id); }
  }

  /** A refused allocation violates, in this order, a check, a unique key or a foreign key. */
  lemma AllocationRefusedAs(t: Tables, id: Id, row: Allocation)
    ensures var r := InsertAllocation(t, id, row);
            var known :=
              id in t.allocations || (row.status == Assigned && AssignedElsewhere(t.allocations, row.need, id));
            && (r == Err(CheckViolation) <==> !FitsMode(row))
            && (r == Err(UniqueViolation) <==> FitsMode(row) && known)
            && (r == Err(ForeignKeyViolation) <==>
                  FitsMode(row) && !known && !(row.need in t.needs && row.provider in t.providers))
            && r != Err(ExclusionViolation) && r != Err(ImmutableViolation)
  {
  }

  /** A change of an allocation is refused by its trigger or a check, by the need's other allocation, or by a row that
      it refers to or that refers to it. */
  lemma AllocationChangeRefusedAs(t: Tables, id: Id, row: Allocation)
    requires id in t.allocations
    ensures var r, was := UpdateAllocation(t, id, row), t.allocations[id];
            var fits := MayMove(t, id, was, row) && FitsMode(row);
            var known := row.status == Assigned && AssignedElsewhere(t.allocations, row.need, id);
            && (r == Err(CheckViolation) <==> !fits)
            && (r == Err(UniqueViolation) <==> fits && known)
            && (r == Err(ForeignKeyViolation) ==> fits && !known)
            && r != Err(ExclusionViolation) && r != Err(ImmutableViolation)
  {
    AllocationMayMove(t, id, t.allocations[id], row);
  }

  /** A matter is refused as one too many only if nothing else is wrong with it, and for want of a booking only if its
      parties have none at all. */
  lemma MatterRefusedAs(t: Tables, id: Id, row: Matter)
    ensures var r := InsertMatter(t, id, row);
            && (r == Err(UniqueViolation) <==>
                  && row.status == Open && row.closedAt == None && row.closeReason == None
                  && AcceptedFor(t.bookings, row.allocation, row.provider, row.citizen)
                  && row.allocation in t.allocations && t.allocations[row.allocation].status == Assigned
                  && t.allocations[row.allocation].provider == row.provider
                  && (id in t.matters || exists m :: m in t.matters && t.matters[m].allocation == row.allocation))
            && (r == Err(ForeignKeyViolation) <==>
                  && row.status == Open
                  && forall b :: b in t.bookings && t.bookings[b].allocation == row.allocation ==>
                       t.bookings[b].provider != row.provider || t.bookings[b].citizen != row.citizen)
            && r != Err(ExclusionViolation) && r != Err(ImmutableViolation)
  {
    AcceptedForIsAccepted(t.bookings, row.allocation, row.provider, row.citizen);
    if HasAcceptedBooking(t.bookings, row.allocation, row.provider, row.citizen) {
      assert HasBooking(t.bookings, row.allocation, row.provider, row.citizen);
    }
  }

  /** Whatever else is wrong, a change of a matter's own columns is refused as such. */
  lemma MatterChangeRefusedAs(t: Tables, id: Id, row: Matter)
    requires id in t.matters
    ensures var r, was := UpdateMatter(t, id, row), t.matters[id];
            && (r == Err(ImmutableViolation) <==>
                  row != was.(status := row.status, closedAt := row.closedAt, closeReason := row.closeReason))
            && (r.Err? && r != Err(ImmutableViolation) ==> r == Err(CheckViolation))
  {
  }

  lemma PartiesInsertedIff(t: Tables, id: Id, who: Id)
    ensures InsertNeed(t, id, who) == if id in t.needs then Err(UniqueViolation)
                                      else Ok(t.(needs := t.needs[id := who]))
    ensures InsertProvider(t, id, who) ==
              if id in t.providers then Err(UniqueViolation) else Ok(t.(providers := t.providers[id := who]))
  {
  }

  /** An update of a row that is not there hits none and is not an error. */
  lemma MissingRowsAreNotUpdated(t: Tables, id: Id, a: Allocation, b: Booking, m: Matter)
    ensures id !in t.allocations ==> UpdateAllocation(t, id, a) == Ok(t)
    ensures id !in t.bookings ==> UpdateBooking(t, id, b) == Ok(t)
    ensures id !in t.matters ==> UpdateMatter(t, id, m) == Ok(t)
  {
  }
}
