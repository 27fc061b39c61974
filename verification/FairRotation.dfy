/** The fairness of the rotation order, over runs of the whole allocation state machine: whatever else happens, the
    turns of a roster's members are a run of the order, as long as nobody edits or releases those members' seats. */
module FairRotation {
  import opened Sequences
  import opened SchedulingTables
  import opened BookingRoutes
  import opened Rotation
  import opened CareAllocation

  // ---- The seats of some members, and the steps that move them ----

  /** The memberships of `members` in the roster. */
  function Watched(seats: Seats, roster: Id, members: set<Id>): Seats {
    map seat | seat in seats && seat.0 == roster && seat.1 in members :: seats[seat]
  }

  /** The booking's allocation occupies the seat of one of `members`. */
  predicate Occupies(t: Tables, booking: Id, roster: Id, members: set<Id>) {
    booking in t.bookings && t.bookings[booking].allocation in t.allocations &&
    var a := t.allocations[t.bookings[booking].allocation];
    a.roster == Some(roster) && a.provider in members
  }

  /** The step neither creates nor edits the seat of one of `members`, nor gives a matter of it back. */
  predicate Quiet(w: World, step: Step, roster: Id, members: set<Id>) {
    match step
    case JoinRoster(r, provider, _) => r != roster || provider !in members
    case AdjustSeat(r, provider, _, _, _) => r != roster || provider !in members
    case DeclineBooking(user, id, _, now) =>
      ProviderRefusal(w.store.tables, user, id, now).Some? || !Occupies(w.store.tables, id, roster, members)
    case CancelBooking(actor, id, now) =>
      CancelRefusal(w.store.tables, actor, id, now).Some? || !Occupies(w.store.tables, id, roster, members)
    case _ => true
  }

  predicate QuietRun(w: World, steps: seq<Step>, roster: Id, members: set<Id>)
    decreases |steps|
  {
    steps == [] || (Quiet(w, steps[0], roster, members) && QuietRun(Apply(w, steps[0]), steps[1..], roster, members))
  }

  /** The step assigns a need to one of `members`. */
  predicate IsTurn(w: World, step: Step, roster: Id, members: set<Id>) {
    && step.RotateNeed? && step.roster == roster && step.next in members
    && IsNext(w.store.memberships, roster, step.pool, step.next)
    && Rotate(w, step.need, roster, Some(step.next), step.id, step.operator, step.now).Ok?
  }

  /** The turns of `members` in a run, in order. */
  function TurnsOf(w: World, steps: seq<Step>, roster: Id, members: set<Id>): seq<Turn>
    decreases |steps|
  {
    if steps == [] then []
    else (if IsTurn(w, steps[0], roster, members) then [Turn(steps[0].next, steps[0].now, steps[0].pool)] else []) +
         TurnsOf(Apply(w, steps[0]), steps[1..], roster, members)
  }

  lemma TurnMoves(w: World, step: Step, roster: Id, members: set<Id>)
    requires IsTurn(w, step, roster, members)
    ensures var seats := Watched(w.store.memberships, roster, members);
            IsNext(seats, roster, step.pool, step.next) &&
            Watched(Apply(w, step).store.memberships, roster, members) == TakeSeat(seats, (roster, step.next), step.now)
  {
    var all, seats := w.store.memberships, Watched(w.store.memberships, roster, members);
    forall q | q in step.pool && Candidate(seats, roster, step.pool, q)
      ensures Compare(seats[(roster, step.next)], seats[(roster, q)]) <= 0
    {
      assert Candidate(all, roster, step.pool, q);
    }
    assert Apply(w, step).store.memberships == TakeSeat(all, (roster, step.next), step.now);
  }

  lemma EndingLeavesOthers(w: World, id: Id, status: BookingStatus, ended: AllocationStatus, reason: Option<string>,
                           now: int,
                           roster: Id, members: set<Id>)
    requires !Occupies(w.store.tables, id, roster, members)
    ensures Watched(Ended(w, id, status, ended, reason, now).store.memberships, roster, members) ==
            Watched(w.store.memberships, roster, members)
  {
  }

  lemma EditsLeaveOthers(w: World, step: Step, roster: Id, members: set<Id>)
    requires (step.JoinRoster? || step.AdjustSeat? || step.RotateNeed?) && Quiet(w, step, roster, members)
    requires !IsTurn(w, step, roster, members)
    ensures Watched(Apply(w, step).store.memberships, roster, members) == Watched(w.store.memberships, roster, members)
  {
  }

  lemma QuietStays(w: World, step: Step, roster: Id, members: set<Id>)
    requires Quiet(w, step, roster, members) && !IsTurn(w, step, roster, members)
    ensures Watched(Apply(w, step).store.memberships, roster, members) == Watched(w.store.memberships, roster, members)
  {
    if !WritesSeats(step) {
      SeatsAreUntouched(w, step);
    } else if step.DeclineBooking? {
      if ProviderRefusal(w.store.tables, step.user, step.id, step.now).None? {
        EndingLeavesOthers(w, step.id, BookingDeclined, Declined, Some(step.reason), step.now, roster, members);
      }
    } else if step.CancelBooking? {
      if CancelRefusal(w.store.tables, step.actor, step.id, step.now).None? {
        EndingLeavesOthers(w, step.id, BookingCancelled, Cancelled, None, step.now, roster, members);
      }
    } else {
      EditsLeaveOthers(w, step, roster, members);
    }
  }

  /** The link: the turns of `members` in a run are a run of the rotation order, and take their seats where it does. */
  lemma {:induction false} TurnsRotate(w: World, steps: seq<Step>, roster: Id, members: set<Id>)
    requires QuietRun(w, steps, roster, members)
    ensures var seats, turns := Watched(w.store.memberships, roster, members), TurnsOf(w, steps, roster, members);
            Rotates(seats, roster, turns) &&
            After(seats, roster, turns) == Watched(CareAllocation.Run(w, steps).store.memberships, roster, members)
    decreases |steps|
  {
    if steps != [] {
      var v := Apply(w, steps[0]);
      TurnsRotate(v, steps[1..], roster, members);
      if IsTurn(w, steps[0], roster, members) {
        TurnMoves(w, steps[0], roster, members);
        var rest, turn := TurnsOf(v, steps[1..], roster, members), Turn(steps[0].next, steps[0].now, steps[0].pool);
        assert TurnsOf(w, steps, roster, members) == [turn] + rest && ([turn] + rest)[1..] == rest;
      } else {
        QuietStays(w, steps[0], roster, members);
        assert TurnsOf(w, steps, roster, members) == TurnsOf(v, steps[1..], roster, members);
      }
    }
  }

  lemma {:induction false} TurnsAreOfMembers(w: World, steps: seq<Step>, roster: Id, members: set<Id>)
    ensures forall t :: t in TurnsOf(w, steps, roster, members) ==> t.provider in members
    decreases |steps|
  {
    if steps != [] { TurnsAreOfMembers(Apply(w, steps[0]), steps[1..], roster, members); }
  }

  // ---- Results ----

  /** Two members that pass the conditions together whenever one of them is assigned stay within one matter of each
      other. */
  lemma RunsKeepLoadsEven(w: World, steps: seq<Step>, roster: Id, p: Id, q: Id)
    requires QuietRun(w, steps, roster, {p, q}) && Even(w.store.memberships, roster, p, q)
    requires AlikeThroughout(TurnsOf(w, steps, roster, {p, q}), p, q)
    ensures Even(CareAllocation.Run(w, steps).store.memberships, roster, p, q)
  {
    TurnsRotate(w, steps, roster, {p, q});
    LoadsStayEven(Watched(w.store.memberships, roster, {p, q}), roster, TurnsOf(w, steps, roster, {p, q}), p, q);
  }

  /** A run in which x gets its first and its last turn serves y in between, if y passed the conditions at those two. */
  lemma RunsServeEveryone(w: World, steps: seq<Step>, roster: Id, x: Id, y: Id)
    requires QuietRun(w, steps, roster, {x, y})
    requires HasRoom(w.store.memberships, roster, y) && Even(w.store.memberships, roster, x, y)
    requires var turns := TurnsOf(w, steps, roster, {x, y});
             && |turns| > 1 && turns[0].provider == turns[|turns| - 1].provider == x
             && y in turns[0].pool && y in turns[|turns| - 1].pool
             && LastBefore(w.store.memberships, roster, y, turns[0].at)
    ensures ServedIn(TurnsOf(w, steps, roster, {x, y}), y)
  {
    var seats, turns := Watched(w.store.memberships, roster, {x, y}), TurnsOf(w, steps, roster, {x, y});
    var last := |turns| - 1;
    TurnsRotate(w, steps, roster, {x, y});
    PrefixRotates(seats, roster, turns, last);
    EveryoneIsServedBetween(seats, roster, turns[..last], turns[last], y);
    var i :| 0 <= i < |turns[..last]| && turns[..last][i].provider == y;
    assert turns[i].provider == y;
  }

  /** From a fresh roster on, with room and a clock that moves: of the turns of members that pass the conditions
      whenever one of them is assigned, any n consecutive ones, n members in all, go to n different members. */
  lemma RunsTakeTurns(w: World, steps: seq<Step>, roster: Id, members: set<Id>, i: nat, j: nat)
    requires QuietRun(w, steps, roster, members) && FreshRoster(w.store.memberships, roster, members)
    requires var turns := TurnsOf(w, steps, roster, members);
             && AlwaysIn(turns, members) && TimesIncrease(turns) && Roomy(w.store.memberships, roster, members, |turns|)
             && i < j < |turns| && j - i < |members|
    ensures var turns := TurnsOf(w, steps, roster, members);
            turns[i].provider != turns[j].provider
  {
    var seats, turns := Watched(w.store.memberships, roster, members), TurnsOf(w, steps, roster, members);
    TurnsRotate(w, steps, roster, members);
    TurnsAreOfMembers(w, steps, roster, members);
    AnyWindowIsDistinct(seats, roster, members, turns, i, j);
  }
}
