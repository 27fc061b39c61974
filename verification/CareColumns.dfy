/** The steps from a need to a quote column by column: when each takes effect, and which rows it then leaves. */
module CareColumns {
  import opened Sequences
  import opened Eligibility
  import opened Money
  import opened SchedulingTables
  import opened BookingRoutes
  import opened Rotation
  import opened CareAllocation

  // ---- Needs, rosters and the directory ----

  lemma NeedIsCreated(w: World, id: Id, citizen: Id, input: Input)
    ensures CreateNeed(w, id, citizen, input).Ok? <==>
            RouteNeed(input) != None && id !in w.decisions && id !in w.store.tables.needs
    ensures CreateNeed(w, id, citizen, input).Ok? ==>
              var v := CreateNeed(w, id, citizen, input).value;
              && v.store.tables == w.store.tables.(needs := w.store.tables.needs[id := citizen])
              && v.decisions == w.decisions[id := RouteNeed(input).value]
              && v.store.memberships == w.store.memberships && v.surface == w.surface && v.quotes == w.quotes
  {
  }

  /** A provider joins a roster once, available, unblocked, without matters and never assigned. */
  lemma JoiningTakesEffect(w: World, roster: Id, provider: Id, capacity: nat)
    requires provider in w.store.tables.providers && (roster, provider) !in w.store.memberships
    ensures CareAllocation.Apply(w, JoinRoster(roster, provider, capacity)).store.memberships ==
            w.store.memberships[(roster, provider) := Membership(true, false, capacity, 0, None)]
  {
  }

  /** An edit sets its three columns, unless the capacity would be below the matters at hand. */
  lemma EditTakesEffect(w: World, roster: Id, provider: Id, available: bool, blocked: bool, capacity: nat)
    requires (roster, provider) in w.store.memberships
    ensures var m := w.store.memberships[(roster, provider)];
            CareAllocation.Apply(w, AdjustSeat(roster, provider, available, blocked, capacity)).store.memberships ==
            if capacity < m.activeMatters then w.store.memberships
            else w.store.memberships[(roster, provider) := Membership(available, blocked, capacity, m.activeMatters,
                                                                      m.lastAssignedAt)]
  {
  }

  /** A surface row is accepted for a paid need and a known provider not yet in it, at a free position from one on. */
  lemma SurfacedIff(w: World, need: Id, provider: Id, position: nat)
    ensures SurfaceProvider(w, need, provider, position).Ok? <==>
            && need in w.store.tables.needs && need in w.decisions && w.decisions[need].route == Paid && position >= 1
            && (need, provider) !in w.surface && provider in w.store.tables.providers
            && (forall p :: (need, p) in w.surface ==> w.surface[(need, p)] != position)
    ensures SurfaceProvider(w, need, provider, position).Ok? ==>
              SurfaceProvider(w, need, provider, position).value ==
              w.(surface := w.surface[(need, provider) := position])
  {
    if k :| k in w.surface && k.0 == need && w.surface[k] == position {
      assert k == (need, k.1);
    }
    forall p | (need, p) in w.surface && w.surface[(need, p)] == position
      ensures PositionTaken(w.surface, need, position)
    {
    }
  }

  // ---- Allocation ----

  predicate Unassigned(w: World, need: Id) {
    forall a :: a in w.store.tables.allocations && w.store.tables.allocations[a].need == need ==>
      w.store.tables.allocations[a].status != Assigned
  }

  /** What a choice needs: a paid need without an assigned allocation, and a provider that was surfaced for it, at a
      place from one on, and is still eligible. */
  predicate Choosable(w: World, need: Id, provider: Id, id: Id, eligible: bool) {
    && need in w.store.tables.needs && need in w.decisions && w.decisions[need].route == Paid && eligible
    && (need, provider) in w.surface && w.surface[(need, provider)] >= 1 && provider in w.store.tables.providers
    && id !in w.store.tables.allocations && Unassigned(w, need)
  }

  lemma UnassignedIsFree(w: World, need: Id, id: Id)
    requires id !in w.store.tables.allocations
    ensures Unassigned(w, need) <==> !NeedTaken(w.store.tables.allocations, need, id)
  {
  }

  lemma ChosenIff(w: World, need: Id, provider: Id, id: Id, eligible: bool)
    ensures Select(w, need, provider, id, eligible).Ok? <==> Choosable(w, need, provider, id, eligible)
    ensures Select(w, need, provider, id, eligible).Ok? ==>
              var row := Allocation(need, provider, CitizenChoice, None, Some(need), Some(w.surface[(need, provider)]),
                                    Assigned, None, None);
              Select(w, need, provider, id, eligible).value ==
              w.(store := w.store.(tables := w.store.tables.(allocations := w.store.tables.allocations[id := row])))
  {
    if id !in w.store.tables.allocations { UnassignedIsFree(w, need, id); }
  }

  /** What a rotation needs: a need without an assigned allocation, paid only on an operator's word, and a member to
      whom it can be given. */
  predicate Rotatable(w: World, need: Id, roster: Id, pool: set<Id>, next: Id, id: Id, operator: bool) {
    && need in w.store.tables.needs && need in w.decisions && (w.decisions[need].route != Paid || operator)
    && Offered(w.store.memberships, roster, pool, next) && next in w.store.tables.providers
    && (forall q :: q in pool && Offered(w.store.memberships, roster, pool, q) ==>
          SortsFirst(w.store.memberships[(roster, next)], w.store.memberships[(roster, q)]))
    && id !in w.store.tables.allocations && Unassigned(w, need)
  }

  /** A rotation takes effect exactly then: an assigned allocation of the roster, and one matter more on the seat, last
      assigned now. */
  lemma RotatedIff(w: World, need: Id, roster: Id, pool: set<Id>, next: Id, id: Id, operator: bool, now: int)
    ensures var v := CareAllocation.Apply(w, RotateNeed(need, roster, pool, next, id, operator, now));
            if Rotatable(w, need, roster, pool, next, id, operator) then
              var m := w.store.memberships[(roster, next)];
              && v.store.tables.allocations ==
                 w.store.tables.allocations[id := Allocation(need, next, AllocationMode.Rotation, Some(roster), None,
                                                             None, Assigned, None, None)]
              && v.store.memberships ==
                 w.store.memberships[(roster, next) := Membership(m.available, m.conflictBlocked, m.capacity,
                                                                  m.activeMatters + 1, Some(now))]
            else v == w
  {
    NextIsOfferedFirst(w.store.memberships, roster, pool, next);
    if id !in w.store.tables.allocations { UnassignedIsFree(w, need, id); }
  }

  // ---- Booking, matters and the end of an allocation ----

  /** The steps that stand for a statement take effect exactly when it is accepted. */
  lemma StatementsTakeEffect(w: World, id: Id, user: Id, booking: Booking)
    ensures CareAllocation.Apply(w, Step.NewProvider(id, user)) ==
            w.(store := w.store.(tables := if InsertProvider(w.store.tables, id, user).Ok?
                                           then InsertProvider(w.store.tables, id, user).value else w.store.tables))
    ensures CareAllocation.Apply(w, Book(id, booking)) ==
            w.(store := w.store.(tables := if InsertBooking(w.store.tables, id, booking).Ok?
                                           then InsertBooking(w.store.tables, id, booking).value else w.store.tables))
  {
  }

  lemma MatterIsClosed(w: World, id: Id, reason: string, now: int)
    requires id in w.store.tables.matters && w.store.tables.matters[id].status == Open
    requires w.store.tables.matters[id].openedAt <= now && exists i :: 0 <= i < |reason| && reason[i] != ' '
    ensures var m := w.store.tables.matters[id];
            CareAllocation.Apply(w, CloseMatter(id, reason, now)).store.tables.matters ==
            w.store.tables.matters[id := Matter(m.allocation, m.provider, m.citizen, Closed, m.openedAt, Some(now),
                                                Some(reason))]
  {
  }

  /** Completing an assigned allocation takes effect exactly when its update is accepted. */
  lemma AllocationIsCompleted(w: World, id: Id, now: int)
    requires id in w.store.tables.allocations && w.store.tables.allocations[id].status == Assigned
    ensures var a := w.store.tables.allocations[id];
            var row := Allocation(a.need, a.provider, a.mode, a.roster, a.seed, a.position, Completed, Some(now),
                                  a.declineReason);
            CareAllocation.Apply(w, CompleteAllocation(id, now)) ==
            if UpdateAllocation(w.store.tables, id, row).Ok?
            then w.(store := w.store.(tables := UpdateAllocation(w.store.tables, id, row).value)) else w
  {
  }

  lemma AcceptTakesEffect(w: World, user: Id, id: Id, matter: Id, now: int)
    requires matter !in w.store.tables.matters
    ensures var v := CareAllocation.Apply(w, AcceptBooking(user, id, matter, now));
            if MayAnswer(w.store.tables, user, id, now) then AcceptedRows(w.store, v.store, id, matter, now) else v == w
  {
    GuardsPassIff(w.store.tables, user, Actor(0, Citizen, None, false), id, now);
    if id in w.store.tables.bookings { AcceptLeavesRows(w.store, id, matter, now); }
  }

  lemma DeclineTakesEffect(w: World, user: Id, id: Id, reason: string, now: int)
    requires Valid(w)
    ensures var v := CareAllocation.Apply(w, DeclineBooking(user, id, reason, now));
            if MayAnswer(w.store.tables, user, id, now) then DeclinedRows(w.store, v.store, id, reason, now) else v == w
  {
    GuardsPassIff(w.store.tables, user, Actor(0, Citizen, None, false), id, now);
    if id in w.store.tables.bookings && w.store.tables.bookings[id].status == Held {
      ReleaseLeavesRows(w.store, id, reason, now);
    }
  }

  lemma CancelTakesEffect(w: World, actor: Actor, id: Id, now: int)
    requires Valid(w)
    ensures var v := CareAllocation.Apply(w, CancelBooking(actor, id, now));
            if MayCancel(w.store.tables, actor, id, now) then CancelledRows(w.store, v.store, id, now) else v == w
  {
    GuardsPassIff(w.store.tables, 0, actor, id, now);
    if id in w.store.tables.bookings && w.store.tables.bookings[id].status == Held {
      ReleaseLeavesRows(w.store, id, "", now);
    }
  }

  // ---- Quotes ----

  predicate InCents(x: real, cents: int) {
    x * 100.0 == cents as real
  }

  /** To the nearest cent, a tie away from zero. */
  lemma RoundingIsNearest(x: real)
    ensures exists cents :: InCents(RoundToCents(x), cents)
    ensures if x >= 0.0 then x - 0.005 < RoundToCents(x) <= x + 0.005 else x - 0.005 <= RoundToCents(x) < x + 0.005
  {
    if x < 0.0 {
      assert InCents(RoundToCents(x), -(-x * 100.0 + 0.5).Floor);
    } else {
      assert InCents(RoundToCents(x), (x * 100.0 + 0.5).Floor);
    }
  }

  /** What a quote needs: a request id that is not blank, the provider behind an open matter on a paid need, holding the
      role, an amount within numeric(14,2) that is the sum of its fees, a currency code, and an expiry to come. */
  predicate Quotable(w: World, r: QuoteRequest, id: Id, holdsRole: bool, now: int) {
    var t, amount := w.store.tables, RoundToCents(r.amount);
    && r.requestId.Some? && (exists i :: 0 <= i < |r.requestId.value| && r.requestId.value[i] != ' ')
    && r.matter in t.matters && t.matters[r.matter].status == Open && t.matters[r.matter].provider in t.providers
    && t.providers[t.matters[r.matter].provider] == r.actor && holdsRole
    && t.matters[r.matter].allocation in t.allocations
    && t.allocations[t.matters[r.matter].allocation].need in w.decisions
    && w.decisions[t.allocations[t.matters[r.matter].allocation].need].route == Paid
    && 0.0 <= amount < 1000000000000.0 && BreakdownCheck(amount, r.fees) && now < r.expiresAt
    && |r.currency| >= 3 && (forall i :: 0 <= i < 3 ==> 'A' <= r.currency[i] <= 'Z')
    && (forall i :: 3 <= i < |r.currency| ==> r.currency[i] == ' ')
    && id !in w.quotes
  }

  lemma CurrencyFits(s: string)
    ensures ToChar3(s).Some? && IsCurrency(ToChar3(s).value) <==>
            |s| >= 3 && (forall i :: 0 <= i < 3 ==> 'A' <= s[i] <= 'Z') && (forall i :: 3 <= i < |s| ==> s[i] == ' ')
    ensures |s| >= 3 && ToChar3(s).Some? ==> ToChar3(s).value == s[..3]
  {
    if |s| < 3 {
      assert ToChar3(s).value[2] == ' ';
    } else {
      assert forall i :: 3 <= i < |s| ==> s[i] == s[3..][i - 3];
      assert forall i :: 0 <= i < |s[3..]| ==> s[3..][i] == s[i + 3];
    }
  }

  lemma QuotedIff(w: World, r: QuoteRequest, id: Id, holdsRole: bool, now: int)
    ensures CreateQuote(w, r, id, holdsRole, now).Ok? <==> Quotable(w, r, id, holdsRole, now)
    ensures Quotable(w, r, id, holdsRole, now) ==>
              var row := Quote(r.matter, w.store.tables.matters[r.matter].provider, RoundToCents(r.amount),
                               r.currency[..3], r.fees, r.expiresAt, now);
              CreateQuote(w, r, id, holdsRole, now).value == w.(quotes := w.quotes[id := row])
  {
    CurrencyFits(r.currency);
  }
}
