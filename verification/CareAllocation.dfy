/** From a routed need to a quote: directory selection, rotation, booking, matters and payment quotes as one state
    machine, and what holds after every run of it. */
module CareAllocation {
  import opened Sequences
  import opened Eligibility
  import opened Money
  import opened SchedulingTables
  import opened BookingRoutes
  import opened Rotation

  /** A row of payment_quote. */
  datatype Quote = Quote(matter: Id, provider: Id, amount: real, currency: string, fees: FeeBreakdown, expiresAt: int,
                         createdAt: int)

  /** The scheduling store, eligibility decisions by need, the position of each (need, provider) in the persisted
      directory, and the quotes. */
  datatype World = World(store: Store, decisions: map<Id, Decision>, surface: map<(Id, Id), nat>,
                         quotes: map<Id, Quote>)

  datatype Refusal =
    | EligibilityPolicyNotConfigured | NeedNotFound | DirectoryNotAllowed | SelectionNotAllowed | ProviderNotSurfaced
    | ProviderNoLongerEligible | RotationNotAllowed | NoRosterProviderAvailable | RequestIdRequired | MatterNotFound
    | NotTheProvider | MatterNotOpen | RouteNotPaid | NumericOverflow | CurrencyTooLong | QuotesAreAppendOnly
    | Violation(error: DbError)

  // ---- Intake and allocation ----

  /** POST /v1/needs: the request and its decision are stored together. */
  function CreateNeed(w: World, id: Id, citizen: Id, input: Input): Result<World, Refusal> {
    match RouteNeed(input)
    case None => Err(EligibilityPolicyNotConfigured)
    case Some(decision) =>
      if id in w.decisions || id in w.store.tables.needs then Err(Violation(UniqueViolation))
      else
        Ok(w.(store := w.store.(tables := w.store.tables.(needs := w.store.tables.needs[id := citizen])),
              decisions := w.decisions[id := decision]))
  }

  predicate Routed(w: World, need: Id) {
    need in w.store.tables.needs && need in w.decisions
  }

  /** UNIQUE (need_request_id, position) */
  predicate PositionTaken(surface: map<(Id, Id), nat>, need: Id, position: nat) {
    exists k :: k in surface && k.0 == need && surface[k] == position
  }

  /** One row of directory_surface, written while the directory of a paid need is generated. */
  function SurfaceProvider(w: World, need: Id, provider: Id, position: nat): Result<World, Refusal> {
    if !Routed(w, need) then Err(NeedNotFound)
    else if w.decisions[need].route != Paid then Err(DirectoryNotAllowed)
    else if position == 0 then Err(Violation(CheckViolation))
    else if (need, provider) in w.surface || PositionTaken(w.surface, need, position) then
      Err(Violation(UniqueViolation))
    else if provider !in w.store.tables.providers then Err(Violation(ForeignKeyViolation))
    else Ok(w.(surface := w.surface[(need, provider) := position]))
  }

  function WithTables(w: World, t: Tables): World {
    w.(store := w.store.(tables := t))
  }

  function Chosen(need: Id, provider: Id, position: nat): Allocation {
    Allocation(need, provider, CitizenChoice, None, Some(need), Some(position), Assigned, None, None)
  }

  function Rotated(need: Id, provider: Id, roster: Id): Allocation {
    Allocation(need, provider, AllocationMode.Rotation, Some(roster), None, None, Assigned, None, None)
  }

  /** POST /v1/needs/:id/select; `eligible` is the answer of the eligibility query at that moment. */
  function Select(w: World, need: Id, provider: Id, id: Id, eligible: bool): Result<World, Refusal> {
    if !Routed(w, need) then Err(NeedNotFound)
    else if w.decisions[need].route != Paid then Err(SelectionNotAllowed)
    else if (need, provider) !in w.surface then Err(ProviderNotSurfaced)
    else if !eligible then Err(ProviderNoLongerEligible)
    else match InsertAllocation(w.store.tables, id, Chosen(need, provider, w.surface[(need, provider)]))
      case Err(error) => Err(Violation(error))
      case Ok(t) => Ok(WithTables(w, t))
  }

  /** POST /v1/needs/:id/rotate, once the query has answered `next`. */
  function Rotate(w: World, need: Id, roster: Id, next: Option<Id>, id: Id, operator: bool,
                  now: int): Result<World, Refusal>
  {
    if !Routed(w, need) then Err(NeedNotFound)
    else if w.decisions[need].route == Paid && !operator then Err(RotationNotAllowed)
    else if next.None? || (roster, next.value) !in w.store.memberships then Err(NoRosterProviderAvailable)
    else match InsertAllocation(w.store.tables, id, Rotated(need, next.value, roster))
      case Err(error) => Err(Violation(error))
      case Ok(t) =>
        Ok(w.(store := w.store.(tables := t, memberships := TakeSeat(w.store.memberships, (roster, next.value), now))))
  }

  // ---- Payment quotes ----

  /** Assignment to numeric(14,2): half away from zero. */
  function RoundToCents(x: real): real {
    if x < 0.0 then -((-x * 100.0 + 0.5).Floor as real / 100.0) else (x * 100.0 + 0.5).Floor as real / 100.0
  }

  /** currency::text ~ '^[A-Z]{3}$' */
  predicate IsCurrency(s: string) {
    |s| == 3 && forall i :: 0 <= i < 3 ==> 'A' <= s[i] <= 'Z'
  }

  predicate OnlySpaces(s: string) {
    forall i :: 0 <= i < |s| ==> s[i] == ' '
  }

  /** Assignment to char(3): padded, or cut where only spaces are lost; none when the text is too long. */
  function ToChar3(s: string): Option<string> {
    if |s| < 3 then Some((s + "   ")[..3])
    else if OnlySpaces(s[3..]) then Some(s[..3])
    else None
  }

  /** So a currency text is accepted exactly when it is three capital letters and spaces after them. */
  lemma AcceptedCurrencyIff(s: string)
    ensures ToChar3(s).Some? && IsCurrency(ToChar3(s).value) <==>
            exists code: string, spaces: string :: s == code + spaces && IsCurrency(code) && OnlySpaces(spaces)
  {
    if |s| >= 3 && OnlySpaces(s[3..]) {
      assert s == s[..3] + s[3..];
    }
    forall code: string, spaces: string | s == code + spaces && IsCurrency(code) && OnlySpaces(spaces)
      ensures ToChar3(s) == Some(code)
    {
      assert s[..3] == code && s[3..] == spaces;
    }
    if |s| < 3 {
      assert ToChar3(s).value[2] == ' ';
    }
  }

  /** The constraints of payment_quote. */
  predicate QuoteShape(q: Quote) {
    q.amount >= 0.0 && IsCurrency(q.currency) && q.expiresAt > q.createdAt && BreakdownCheck(q.amount, q.fees)
  }

  datatype QuoteRequest = QuoteRequest(matter: Id, actor: Id, amount: real, currency: string, fees: FeeBreakdown,
                                       expiresAt: int, requestId: Option<string>)

  /** create_payment_quote; `holdsRole` says whether the actor has a PROVIDER role grant. */
  function CreateQuote(w: World, r: QuoteRequest, id: Id, holdsRole: bool, now: int): Result<World, Refusal> {
    var t := w.store.tables;
    if r.requestId.None? || BlankReason(r.requestId.value) then Err(RequestIdRequired)
    else if r.matter !in t.matters || t.matters[r.matter].provider !in t.providers ||
            t.matters[r.matter].allocation !in t.allocations ||
            t.allocations[t.matters[r.matter].allocation].need !in w.decisions then Err(MatterNotFound)
    else
      var m := t.matters[r.matter];
      if t.providers[m.provider] != r.actor || !holdsRole then Err(NotTheProvider)
      else if m.status != Open then Err(MatterNotOpen)
      else if w.decisions[t.allocations[m.allocation].need].route != Paid then Err(RouteNotPaid)
      else
        var amount, currency := RoundToCents(r.amount), ToChar3(r.currency);
        if amount >= 1000000000000.0 || amount <= -1000000000000.0 then Err(NumericOverflow)
        else if currency.None? then Err(CurrencyTooLong)
        else
          var q := Quote(r.matter, m.provider, amount, currency.value, r.fees, r.expiresAt, now);
          if !QuoteShape(q) then Err(Violation(CheckViolation))
          else if id in w.quotes then Err(Violation(UniqueViolation))
          else Ok(w.(quotes := w.quotes[id := q]))
  }

  /** UPDATE (to the given row) or DELETE of the quote with that key: the trigger raises for every row the statement
      hits, before it is changed. */
  function ChangeQuote(w: World, id: Id, change: Option<Quote>): Result<World, Refusal> {
    if id in w.quotes then Err(QuotesAreAppendOnly)
    else Ok(w.(quotes := if change.Some? then w.quotes else w.quotes - {id}))
  }

  // ---- What every run keeps ----

  /** A paid decision carries no Section 12 category, and belongs to a need. */
  predicate DecisionsOk(decisions: map<Id, Decision>, needs: map<Id, Id>) {
    forall n :: n in decisions ==> n in needs && (decisions[n].route == Paid ==> decisions[n].section12Category == None)
  }

  /** A citizen's choice is on a paid need and in its persisted directory. */
  predicate ChoiceOk(decisions: map<Id, Decision>, surface: map<(Id, Id), nat>, a: Allocation) {
    a.mode == CitizenChoice ==>
      a.need in decisions && decisions[a.need].route == Paid && (a.need, a.provider) in surface
  }

  predicate ChoicesOk(decisions: map<Id, Decision>, surface: map<(Id, Id), nat>, allocations: map<Id, Allocation>) {
    forall a :: a in allocations ==> ChoiceOk(decisions, surface, allocations[a])
  }

  /** A quote is for a matter of its provider, on a need routed as paid, and adds up without commission. */
  predicate QuoteOk(t: Tables, decisions: map<Id, Decision>, q: Quote) {
    && q.matter in t.matters && t.matters[q.matter].provider == q.provider
    && t.matters[q.matter].allocation in t.allocations
    && t.allocations[t.matters[q.matter].allocation].need in decisions
    && decisions[t.allocations[t.matters[q.matter].allocation].need].route == Paid
    && QuoteShape(q)
  }

  predicate QuotesOk(t: Tables, decisions: map<Id, Decision>, quotes: map<Id, Quote>) {
    forall q {:trigger QuoteOk(t, decisions, quotes[q])} :: q in quotes ==> QuoteOk(t, decisions, quotes[q])
  }

  predicate SeatsKnown(s: Store) {
    forall seat :: seat in s.memberships ==> seat.1 in s.tables.providers
  }

  predicate Valid(w: World) {
    && Consistent(w.store) && SeatsKnown(w.store)
    && DecisionsOk(w.decisions, w.store.tables.needs)
    && ChoicesOk(w.decisions, w.surface, w.store.tables.allocations)
    && QuotesOk(w.store.tables, w.decisions, w.quotes)
  }

  // ---- Steps ----

  datatype Step =
    | NewProvider(id: Id, user: Id)
    | NewNeed(id: Id, citizen: Id, input: Input)
    | JoinRoster(roster: Id, provider: Id, capacity: nat)
    | AdjustSeat(roster: Id, provider: Id, available: bool, conflictBlocked: bool, capacity: nat)
    | Surface(need: Id, provider: Id, position: nat)
    | SelectProvider(need: Id, provider: Id, id: Id, eligible: bool)
    | RotateNeed(need: Id, roster: Id, pool: set<Id>, next: Id, id: Id, operator: bool, now: int)
    | Book(id: Id, booking: Booking)
    | AcceptBooking(user: Id, id: Id, matter: Id, now: int)
    | DeclineBooking(user: Id, id: Id, reason: string, now: int)
    | CancelBooking(actor: Actor, id: Id, now: int)
    | CloseMatter(id: Id, reason: string, now: int)
    | CompleteAllocation(id: Id, now: int)
    | QuoteMatter(request: QuoteRequest, id: Id, holdsRole: bool, now: int)
    | WriteQuote(id: Id, change: Option<Quote>)

  function Kept(w: World, r: Result<World, Refusal>): World {
    if r.Ok? then r.value else w
  }

  function KeptTables(w: World, r: Result<Tables, DbError>): World {
    if r.Ok? then WithTables(w, r.value) else w
  }

  function Joined(w: World, seat: Seat, capacity: nat): World {
    if seat in w.store.memberships || seat.1 !in w.store.tables.providers then w
    else w.(store := w.store.(memberships := w.store.memberships[seat := Membership(true, false, capacity, 0, None)]))
  }

  /** An owner's change of a membership; CHECK (active_matters <= capacity). */
  function Adjusted(w: World, seat: Seat, available: bool, conflictBlocked: bool, capacity: nat): World {
    if seat !in w.store.memberships || w.store.memberships[seat].activeMatters > capacity then w
    else
      var m :=
        w.store.memberships[seat].(available := available, conflictBlocked := conflictBlocked, capacity := capacity);
      w.(store := w.store.(memberships := w.store.memberships[seat := m]))
  }

  /** A refused step changes nothing. A rotation assigns a member that no other candidate sorts before; new keys are
      new. */
  function Apply(w: World, step: Step): World {
    var t := w.store.tables;
    match step
    case NewProvider(id, user) => KeptTables(w, InsertProvider(t, id, user))
    case NewNeed(id, citizen, input) => Kept(w, CreateNeed(w, id, citizen, input))
    case JoinRoster(roster, provider, capacity) => Joined(w, (roster, provider), capacity)
    case AdjustSeat(roster, provider, available, blocked, capacity) =>
      Adjusted(w, (roster, provider), available, blocked, capacity)
    case Surface(need, provider, position) => Kept(w, SurfaceProvider(w, need, provider, position))
    case SelectProvider(need, provider, id, eligible) => Kept(w, Select(w, need, provider, id, eligible))
    case RotateNeed(need, roster, pool, next, id, operator, now) =>
      if IsNext(w.store.memberships, roster, pool, next) then
        Kept(w, Rotate(w, need, roster, Some(next), id, operator, now))
      else w
    case Book(id, booking) => KeptTables(w, InsertBooking(t, id, booking))
    case AcceptBooking(user, id, matter, now) =>
      if ProviderRefusal(t, user, id, now).Some? || id !in t.bookings || matter in t.matters then w
      else w.(store := AfterAccept(w.store, id, matter, now))
    case DeclineBooking(user, id, reason, now) =>
      if ProviderRefusal(t, user, id, now).Some? then w else Ended(w, id, BookingDeclined, Declined, Some(reason), now)
    case CancelBooking(actor, id, now) =>
      if CancelRefusal(t, actor, id, now).Some? then w else Ended(w, id, BookingCancelled, Cancelled, None, now)
    case CloseMatter(id, reason, now) =>
      if id !in t.matters then w
      else
        var row := t.matters[id].(status := Closed, closedAt := Some(now), closeReason := Some(reason));
        KeptTables(w, UpdateMatter(t, id, row))
    case CompleteAllocation(id, now) =>
      if id !in t.allocations || t.allocations[id].status != Assigned then w
      else KeptTables(w, UpdateAllocation(t, id, t.allocations[id].(status := Completed, endedAt := Some(now))))
    case QuoteMatter(request, id, holdsRole, now) => Kept(w, CreateQuote(w, request, id, holdsRole, now))
    case WriteQuote(id, change) => Kept(w, ChangeQuote(w, id, change))
  }

  function Ended(w: World, id: Id, status: BookingStatus, ended: AllocationStatus, reason: Option<string>,
                 now: int): World
  {
    if id !in w.store.tables.bookings || w.store.tables.bookings[id].allocation !in w.store.tables.allocations then w
    else w.(store := AfterRelease(w.store, id, status, ended, reason, now))
  }

  function Run(w: World, steps: seq<Step>): World
    decreases |steps|
  {
    if steps == [] then w else Run(Apply(w, steps[0]), steps[1..])
  }

  const EMPTY_WORLD := World(Store(EMPTY, map[], []), map[], map[], map[])

  predicate WritesSeats(step: Step) {
    step.JoinRoster? || step.AdjustSeat? || step.RotateNeed? || step.DeclineBooking? || step.CancelBooking?
  }

  lemma SeatsAreUntouched(w: World, step: Step)
    requires !WritesSeats(step)
    ensures Apply(w, step).store.memberships == w.store.memberships
  {
  }

  /** The seat that ending this booking would release. */
  function SeatOfBooking(w: World, id: Id): Option<Seat> {
    if id !in w.store.tables.bookings || w.store.tables.bookings[id].allocation !in w.store.tables.allocations then None
    else
      var a := w.store.tables.allocations[w.store.tables.bookings[id].allocation];
      if a.roster.None? then None else Some((a.roster.value, a.provider))
  }

  predicate MovesSeat(w: World, step: Step, seat: Seat) {
    match step
    case AdjustSeat(roster, provider, _, _, _) => (roster, provider) == seat
    case RotateNeed(_, roster, _, next, _, _, _) => (roster, next) == seat
    case DeclineBooking(_, id, _, _) => SeatOfBooking(w, id) == Some(seat)
    case CancelBooking(_, id, _) => SeatOfBooking(w, id) == Some(seat)
    case _ => false
  }

  lemma SeatStays(w: World, step: Step, seat: Seat)
    requires seat in w.store.memberships && !MovesSeat(w, step, seat)
    ensures var after := Apply(w, step).store.memberships; seat in after && after[seat] == w.store.memberships[seat]
  {
    if !WritesSeats(step) { SeatsAreUntouched(w, step); }
  }

  // ---- Capacity under the other writes ----

  lemma SeatUnchanged(before: map<Id, Allocation>, after: map<Id, Allocation>, seat: Seat)
    requires forall a :: (a in before && Charges(before[a], seat)) <==> (a in after && Charges(after[a], seat))
    ensures Charged(after, seat) == Charged(before, seat)
  {
  }

  lemma JoiningKeepsConserved(allocations: map<Id, Allocation>, memberships: map<Seat, Membership>, seat: Seat,
                              capacity: nat)
    requires Conserved(allocations, memberships) && seat !in memberships
    ensures Conserved(allocations, memberships[seat := Membership(true, false, capacity, 0, None)])
  {
    var after := memberships[seat := Membership(true, false, capacity, 0, None)];
    assert Charged(allocations, seat) == {};
    forall k | k in after
      ensures SeatOk(allocations, after, k)
    {
      if k != seat { assert SeatOk(allocations, memberships, k); }
    }
  }

  lemma AdjustingKeepsConserved(allocations: map<Id, Allocation>, memberships: map<Seat, Membership>, seat: Seat,
                                m: Membership)
    requires Conserved(allocations, memberships) && seat in memberships
    requires m.activeMatters == memberships[seat].activeMatters <= m.capacity
    ensures Conserved(allocations, memberships[seat := m])
  {
    var after := memberships[seat := m];
    forall k | k in after
      ensures SeatOk(allocations, after, k)
    {
      assert SeatOk(allocations, memberships, k);
    }
  }

  /** A new allocation outside every roster, or an allocation that stays charged to its seat, moves no counter. */
  lemma SameChargesKeepConserved(allocations: map<Id, Allocation>, memberships: map<Seat, Membership>, id: Id,
                                 row: Allocation)
    requires Conserved(allocations, memberships)
    requires if id in allocations then
               row.roster == allocations[id].roster && row.provider == allocations[id].provider &&
               (row.status in {Assigned, Completed} <==> allocations[id].status in {Assigned, Completed})
             else row.roster.None?
    ensures Conserved(allocations[id := row], memberships)
  {
    var after := allocations[id := row];
    forall k | k in memberships
      ensures SeatOk(after, memberships, k)
    {
      assert SeatOk(allocations, memberships, k);
      SeatUnchanged(allocations, after, k);
    }
  }

  /** Rotation: one more allocation and one more matter on the same, not yet full, seat. */
  lemma TakingKeepsConserved(allocations: map<Id, Allocation>, memberships: map<Seat, Membership>, id: Id,
                             row: Allocation, now: int)
    requires Conserved(allocations, memberships) && id !in allocations
    requires row.roster.Some? && row.status == Assigned && (row.roster.value, row.provider) in memberships
    requires Assignable(memberships[(row.roster.value, row.provider)])
    ensures Conserved(allocations[id := row], TakeSeat(memberships, (row.roster.value, row.provider), now))
  {
    var seat := (row.roster.value, row.provider);
    var after, seats := allocations[id := row], TakeSeat(memberships, seat, now);
    assert seats.Keys == memberships.Keys;
    forall k | k in seats
      ensures SeatOk(after, seats, k)
    {
      assert SeatOk(allocations, memberships, k);
      ChargedAfter(allocations, id, row, k);
      assert id !in Charged(allocations, k);
    }
  }

  // ---- Nothing that a choice or a quote rests on is ever taken back ----

  predicate Extends(w: World, v: World) {
    && (forall n :: n in w.decisions ==> n in v.decisions && v.decisions[n] == w.decisions[n])
    && w.surface.Keys <= v.surface.Keys
    && (forall a :: a in w.store.tables.allocations ==>
          a in v.store.tables.allocations && SameChoice(w.store.tables.allocations[a], v.store.tables.allocations[a]))
    && (forall m :: m in w.store.tables.matters ==>
          m in v.store.tables.matters && SameMatter(w.store.tables.matters[m], v.store.tables.matters[m]))
  }

  predicate SameChoice(a: Allocation, c: Allocation) {
    a.need == c.need && a.provider == c.provider && a.mode == c.mode
  }

  predicate SameMatter(m: Matter, n: Matter) {
    m.allocation == n.allocation && m.provider == n.provider
  }

  lemma ExtendingKeepsQuotes(w: World, v: World)
    requires Extends(w, v) && QuotesOk(w.store.tables, w.decisions, w.quotes)
    ensures QuotesOk(v.store.tables, v.decisions, w.quotes)
  {
    forall q | q in w.quotes
      ensures QuoteOk(v.store.tables, v.decisions, w.quotes[q])
    {
      assert QuoteOk(w.store.tables, w.decisions, w.quotes[q]);
    }
  }

  lemma ExtendingKeepsChoices(w: World, v: World)
    requires Extends(w, v) && ChoicesOk(w.decisions, w.surface, w.store.tables.allocations)
    requires forall a :: a in v.store.tables.allocations && a !in w.store.tables.allocations ==>
               ChoiceOk(v.decisions, v.surface, v.store.tables.allocations[a])
    ensures ChoicesOk(v.decisions, v.surface, v.store.tables.allocations)
  {
    forall a | a in v.store.tables.allocations
      ensures ChoiceOk(v.decisions, v.surface, v.store.tables.allocations[a])
    {
      if a in w.store.tables.allocations { assert ChoiceOk(w.decisions, w.surface, w.store.tables.allocations[a]); }
    }
  }

  /** What a step has to show. */
  lemma ExtendingKeeps(w: World, v: World)
    requires Valid(w) && Extends(w, v) && v.quotes == w.quotes
    requires Consistent(v.store) && SeatsKnown(v.store) && DecisionsOk(v.decisions, v.store.tables.needs)
    requires forall a :: a in v.store.tables.allocations && a !in w.store.tables.allocations ==>
               ChoiceOk(v.decisions, v.surface, v.store.tables.allocations[a])
    ensures Valid(v)
  {
    ExtendingKeepsQuotes(w, v);
    ExtendingKeepsChoices(w, v);
  }

  // ---- Every step keeps it ----

  lemma NewProviderKeeps(w: World, id: Id, user: Id)
    requires Valid(w)
    ensures Valid(Apply(w, Step.NewProvider(id, user)))
  {
    var r := InsertProvider(w.store.tables, id, user);
    if r.Ok? { ProviderKeeps(w.store.tables, id, user); }
    ExtendingKeeps(w, KeptTables(w, r));
  }

  lemma NewNeedKeeps(w: World, id: Id, citizen: Id, input: Input)
    requires Valid(w) && CreateNeed(w, id, citizen, input).Ok?
    ensures Valid(CreateNeed(w, id, citizen, input).value)
  {
    NeedKeeps(w.store.tables, id, citizen);
    RoutedMeans(input);
    ExtendingKeeps(w, CreateNeed(w, id, citizen, input).value);
  }

  lemma SeatsKeep(w: World, seat: Seat, available: bool, blocked: bool, capacity: nat)
    requires Valid(w)
    ensures Valid(Joined(w, seat, capacity)) && Valid(Adjusted(w, seat, available, blocked, capacity))
  {
    var allocations, memberships := w.store.tables.allocations, w.store.memberships;
    if seat !in memberships {
      JoiningKeepsConserved(allocations, memberships, seat, capacity);
    } else if memberships[seat].activeMatters <= capacity {
      var m := memberships[seat].(available := available, conflictBlocked := blocked, capacity := capacity);
      AdjustingKeepsConserved(allocations, memberships, seat, m);
    }
  }

  lemma SurfaceKeeps(w: World, need: Id, provider: Id, position: nat)
    requires Valid(w)
    ensures Valid(Kept(w, SurfaceProvider(w, need, provider, position)))
  {
    ExtendingKeeps(w, Kept(w, SurfaceProvider(w, need, provider, position)));
  }

  lemma SelectKeeps(w: World, need: Id, provider: Id, id: Id, eligible: bool)
    requires Valid(w) && Select(w, need, provider, id, eligible).Ok?
    ensures Valid(Select(w, need, provider, id, eligible).value)
  {
    var row := Chosen(need, provider, w.surface[(need, provider)]);
    NewAllocationKeeps(w.store.tables, id, row);
    SameChargesKeepConserved(w.store.tables.allocations, w.store.memberships, id, row);
    ExtendingKeeps(w, Select(w, need, provider, id, eligible).value);
  }

  lemma RotateKeeps(w: World, need: Id, roster: Id, next: Id, id: Id, operator: bool, now: int)
    requires Valid(w) && Rotate(w, need, roster, Some(next), id, operator, now).Ok?
    requires (roster, next) in w.store.memberships && Assignable(w.store.memberships[(roster, next)])
    ensures Valid(Rotate(w, need, roster, Some(next), id, operator, now).value)
  {
    var row := Rotated(need, next, roster);
    NewAllocationKeeps(w.store.tables, id, row);
    TakingKeepsConserved(w.store.tables.allocations, w.store.memberships, id, row, now);
    ExtendingKeeps(w, Rotate(w, need, roster, Some(next), id, operator, now).value);
  }

  lemma BookKeeps(w: World, id: Id, booking: Booking)
    requires Valid(w)
    ensures Valid(Apply(w, Book(id, booking)))
  {
    if InsertBooking(w.store.tables, id, booking).Ok? { NewBookingKeeps(w.store.tables, id, booking); }
    ExtendingKeeps(w, Apply(w, Book(id, booking)));
  }

  lemma AcceptKeeps(w: World, user: Id, id: Id, matter: Id, now: int)
    requires Valid(w)
    ensures Valid(Apply(w, AcceptBooking(user, id, matter, now)))
  {
    var t := w.store.tables;
    if ProviderRefusal(t, user, id, now).None? && matter !in t.matters {
      var v := w.(store := AfterAccept(w.store, id, matter, now));
      assert Consistent(v.store) by {
        LockFinds(t, id);
        AcceptSucceeds(w.store, id, matter, now);
      }
      assert v.store.tables.allocations == t.allocations;
      ExtendingKeeps(w, v);
    }
  }

  lemma EndingExtends(w: World, id: Id, status: BookingStatus, ended: AllocationStatus, reason: Option<string>,
                      now: int)
    ensures var v := Ended(w, id, status, ended, reason, now);
            Extends(w, v) && v.quotes == w.quotes && v.decisions == w.decisions &&
            v.store.tables.needs == w.store.tables.needs &&
            v.store.tables.allocations.Keys == w.store.tables.allocations.Keys
  {
    var t, v := w.store.tables, Ended(w, id, status, ended, reason, now);
    if id in t.bookings && t.bookings[id].allocation in t.allocations {
      var a := t.bookings[id].allocation;
      var row := Released(t.allocations[a], ended, reason, now);
      assert SameChoice(t.allocations[a], row);
      assert v.store.tables.allocations == t.allocations[a := row] && v.store.tables.matters == t.matters;
    }
  }

  lemma EndingKeeps(w: World, id: Id, status: BookingStatus, ended: AllocationStatus, reason: Option<string>, now: int)
    requires Valid(w) && id in w.store.tables.bookings && w.store.tables.bookings[id].status == Held
    requires now >= w.store.tables.bookings[id].updatedAt
    requires status in {BookingDeclined, BookingCancelled} && ended in {Declined, Cancelled}
    ensures Valid(Ended(w, id, status, ended, reason, now))
  {
    var v := Ended(w, id, status, ended, reason, now);
    assert Consistent(v.store) by { ReleaseSucceeds(w.store, id, status, ended, reason, now); }
    EndingExtends(w, id, status, ended, reason, now);
    ExtendingKeeps(w, v);
  }

  lemma ReplacedMatterKeeps(w: World, id: Id, row: Matter)
    requires Valid(w) && id in w.store.tables.matters && SameMatter(w.store.tables.matters[id], row)
    requires Sound(w.store.tables.(matters := w.store.tables.matters[id := row]))
    ensures Valid(WithTables(w, w.store.tables.(matters := w.store.tables.matters[id := row])))
  {
    ExtendingKeeps(w, WithTables(w, w.store.tables.(matters := w.store.tables.matters[id := row])));
  }

  lemma CloseKeeps(w: World, id: Id, reason: string, now: int)
    requires Valid(w)
    ensures Valid(Apply(w, CloseMatter(id, reason, now)))
  {
    var t := w.store.tables;
    if id in t.matters {
      var row := t.matters[id].(status := Closed, closedAt := Some(now), closeReason := Some(reason));
      if UpdateMatter(t, id, row).Ok? {
        SetMatterKeeps(t, id, row);
        ReplacedMatterKeeps(w, id, row);
      }
    }
  }

  lemma ReplacedAllocationKeeps(w: World, id: Id, row: Allocation)
    requires Valid(w) && id in w.store.tables.allocations && SameChoice(w.store.tables.allocations[id], row)
    requires var allocations := w.store.tables.allocations[id := row];
             Sound(w.store.tables.(allocations := allocations)) && Conserved(allocations, w.store.memberships)
    ensures Valid(WithTables(w, w.store.tables.(allocations := w.store.tables.allocations[id := row])))
  {
    ExtendingKeeps(w, WithTables(w, w.store.tables.(allocations := w.store.tables.allocations[id := row])));
  }

  lemma CompleteKeeps(w: World, id: Id, now: int)
    requires Valid(w)
    ensures Valid(Apply(w, CompleteAllocation(id, now)))
  {
    var t := w.store.tables;
    if id in t.allocations && t.allocations[id].status == Assigned {
      var row := t.allocations[id].(status := Completed, endedAt := Some(now));
      if UpdateAllocation(t, id, row).Ok? {
        SetAllocationKeeps(t, id, row);
        SameChargesKeepConserved(t.allocations, w.store.memberships, id, row);
        ReplacedAllocationKeeps(w, id, row);
      }
    }
  }

  lemma QuoteKeeps(w: World, r: QuoteRequest, id: Id, holdsRole: bool, now: int)
    requires Valid(w) && CreateQuote(w, r, id, holdsRole, now).Ok?
    ensures Valid(CreateQuote(w, r, id, holdsRole, now).value)
  {
    var v := CreateQuote(w, r, id, holdsRole, now).value;
    forall q | q in v.quotes
      ensures QuoteOk(v.store.tables, v.decisions, v.quotes[q])
    {
      if q != id { assert QuoteOk(w.store.tables, w.decisions, w.quotes[q]); }
    }
  }

  lemma DeclineKeeps(w: World, user: Id, id: Id, reason: string, now: int)
    requires Valid(w)
    ensures Valid(Apply(w, DeclineBooking(user, id, reason, now)))
  {
    if ProviderRefusal(w.store.tables, user, id, now).None? {
      LockFinds(w.store.tables, id);
      EndingKeeps(w, id, BookingDeclined, Declined, Some(reason), now);
    }
  }

  lemma CancelKeeps(w: World, actor: Actor, id: Id, now: int)
    requires Valid(w)
    ensures Valid(Apply(w, CancelBooking(actor, id, now)))
  {
    if CancelRefusal(w.store.tables, actor, id, now).None? {
      LockFinds(w.store.tables, id);
      EndingKeeps(w, id, BookingCancelled, Cancelled, None, now);
    }
  }

  lemma AllocatingKeeps(w: World, step: Step)
    requires Valid(w) && (step.SelectProvider? || step.RotateNeed? || step.QuoteMatter?)
    ensures Valid(Apply(w, step))
  {
    match step {
      case SelectProvider(need, provider, id, eligible) =>
        if Select(w, need, provider, id, eligible).Ok? { SelectKeeps(w, need, provider, id, eligible); }
      case RotateNeed(need, roster, pool, next, id, operator, now) =>
        if IsNext(w.store.memberships, roster, pool, next) &&
           Rotate(w, need, roster, Some(next), id, operator, now).Ok? {
          RotateKeeps(w, need, roster, next, id, operator, now);
        }
      case QuoteMatter(request, id, holdsRole, now) =>
        if CreateQuote(w, request, id, holdsRole, now).Ok? { QuoteKeeps(w, request, id, holdsRole, now); }
    }
  }

  lemma RegisteringKeeps(w: World, step: Step)
    requires Valid(w) && (step.NewProvider? || step.NewNeed? || step.JoinRoster? || step.AdjustSeat? || step.Surface?)
    ensures Valid(Apply(w, step))
  {
    match step {
      case NewProvider(id, user) => NewProviderKeeps(w, id, user);
      case NewNeed(id, citizen, input) =>
        if CreateNeed(w, id, citizen, input).Ok? { NewNeedKeeps(w, id, citizen, input); }
      case JoinRoster(roster, provider, capacity) => SeatsKeep(w, (roster, provider), true, false, capacity);
      case AdjustSeat(roster, provider, available, blocked, capacity) =>
        SeatsKeep(w, (roster, provider), available, blocked, capacity);
      case Surface(need, provider, position) => SurfaceKeeps(w, need, provider, position);
    }
  }

  lemma WritingLeavesQuotes(w: World, id: Id, change: Option<Quote>)
    ensures Apply(w, WriteQuote(id, change)) == w
  {
    assert id !in w.quotes ==> w.quotes - {id} == w.quotes;
  }

  lemma StepKeeps(w: World, step: Step)
    requires Valid(w)
    ensures Valid(Apply(w, step))
  {
    match step {
      case Book(id, booking) => BookKeeps(w, id, booking);
      case AcceptBooking(user, id, matter, now) => AcceptKeeps(w, user, id, matter, now);
      case DeclineBooking(user, id, reason, now) => DeclineKeeps(w, user, id, reason, now);
      case CancelBooking(actor, id, now) => CancelKeeps(w, actor, id, now);
      case CloseMatter(id, reason, now) => CloseKeeps(w, id, reason, now);
      case CompleteAllocation(id, now) => CompleteKeeps(w, id, now);
      case SelectProvider(_, _, _, _) => AllocatingKeeps(w, step);
      case RotateNeed(_, _, _, _, _, _, _) => AllocatingKeeps(w, step);
      case QuoteMatter(_, _, _, _) => AllocatingKeeps(w, step);
      case WriteQuote(id, change) => WritingLeavesQuotes(w, id, change);
      case NewProvider(_, _) => RegisteringKeeps(w, step);
      case NewNeed(_, _, _) => RegisteringKeeps(w, step);
      case JoinRoster(_, _, _) => RegisteringKeeps(w, step);
      case AdjustSeat(_, _, _, _, _) => RegisteringKeeps(w, step);
      case Surface(_, _, _) => RegisteringKeeps(w, step);
    }
  }

  lemma {:induction false} RunKeeps(w: World, steps: seq<Step>)
    requires Valid(w)
    ensures Valid(Run(w, steps))
    decreases |steps|
  {
    if steps != [] {
      StepKeeps(w, steps[0]);
      RunKeeps(Apply(w, steps[0]), steps[1..]);
    }
  }

  lemma EmptyWorldIsValid()
    ensures Valid(EMPTY_WORLD)
  {
  }

  // ---- Results ----

  /** The rotation allocations of the seat that are assigned or completed. */
  function OccupiedBy(rows: map<Id, Allocation>, seat: Seat): set<Id> {
    set a | a in rows && rows[a].roster == Some(seat.0) && rows[a].provider == seat.1 &&
            rows[a].status != Declined && rows[a].status != Cancelled
  }

  /** Conservation: after every run a member's counter is the number of allocations that occupy the seat, within
      capacity. */
  lemma CapacityIsConserved(steps: seq<Step>, seat: Seat)
    requires seat in Run(EMPTY_WORLD, steps).store.memberships
    ensures var s := Run(EMPTY_WORLD, steps).store;
            s.memberships[seat].activeMatters ==
              |OccupiedBy(s.tables.allocations, seat)| <= s.memberships[seat].capacity
  {
    EmptyWorldIsValid();
    RunKeeps(EMPTY_WORLD, steps);
    var s := Run(EMPTY_WORLD, steps).store;
    assert Charged(s.tables.allocations, seat) == OccupiedBy(s.tables.allocations, seat);
    assert SeatOk(s.tables.allocations, s.memberships, seat);
  }

  /** A chosen provider was in the persisted directory of a need routed as paid. */
  lemma ChoicesAreFromTheDirectory(steps: seq<Step>, a: Id)
    requires var w := Run(EMPTY_WORLD, steps);
             a in w.store.tables.allocations && w.store.tables.allocations[a].mode == CitizenChoice
    ensures var w := Run(EMPTY_WORLD, steps);
            var allocation := w.store.tables.allocations[a];
            allocation.need in w.decisions && w.decisions[allocation.need].route == Paid &&
            (allocation.need, allocation.provider) in w.surface
  {
    EmptyWorldIsValid();
    RunKeeps(EMPTY_WORLD, steps);
    var w := Run(EMPTY_WORLD, steps);
    assert ChoiceOk(w.decisions, w.surface, w.store.tables.allocations[a]);
  }

  /** What a quote rests on: one provider throughout, a need routed as paid without a Section 12 category, and an
      amount that is the sum of the two fees. */
  lemma QuoteIsOwed(w: World, q: Id)
    requires Valid(w) && q in w.quotes
    ensures var t, quote := w.store.tables, w.quotes[q];
            && quote.matter in t.matters && t.matters[quote.matter].allocation in t.allocations
            && var matter, allocation := t.matters[quote.matter], t.allocations[t.matters[quote.matter].allocation];
               && quote.provider == matter.provider == allocation.provider
               && HasAcceptedBooking(t.bookings, matter.allocation, quote.provider, matter.citizen)
               && allocation.need in w.decisions
               && w.decisions[allocation.need].route == Paid && w.decisions[allocation.need].section12Category == None
               && (allocation.mode == CitizenChoice ==> (allocation.need, quote.provider) in w.surface)
               && BreakdownCheck(quote.amount, quote.fees)
  {
    var t, quote := w.store.tables, w.quotes[q];
    assert QuoteOk(t, w.decisions, quote);
    PartiesAgree(t, quote.matter);
    assert MatterOk(t, t.matters[quote.matter]);
    assert ChoiceOk(w.decisions, w.surface, t.allocations[t.matters[quote.matter].allocation]);
  }

  lemma StepKeepsDecisions(w: World, step: Step, need: Id)
    requires need in w.decisions
    ensures need in Apply(w, step).decisions && Apply(w, step).decisions[need] == w.decisions[need]
  {
  }

  lemma {:induction false} DecisionsAreFinal(w: World, steps: seq<Step>, need: Id)
    requires need in w.decisions
    ensures need in Run(w, steps).decisions && Run(w, steps).decisions[need] == w.decisions[need]
    decreases |steps|
  {
    if steps != [] {
      StepKeepsDecisions(w, steps[0], need);
      DecisionsAreFinal(Apply(w, steps[0]), steps[1..], need);
    }
  }

  lemma StepKeepsQuotes(w: World, step: Step, q: Id)
    requires q in w.quotes
    ensures q in Apply(w, step).quotes && Apply(w, step).quotes[q] == w.quotes[q]
  {
    if step.WriteQuote? { WritingLeavesQuotes(w, step.id, step.change); }
  }

  /** Whatever is attempted, an UPDATE or DELETE of it included, a quote stays as it was created. */
  lemma {:induction false} QuotesAreFinal(w: World, steps: seq<Step>, q: Id)
    requires q in w.quotes
    ensures q in Run(w, steps).quotes && Run(w, steps).quotes[q] == w.quotes[q]
    decreases |steps|
  {
    if steps != [] {
      StepKeepsQuotes(w, steps[0], q);
      QuotesAreFinal(Apply(w, steps[0]), steps[1..], q);
    }
  }

  predicate QuotedFor(t: Tables, q: Quote, need: Id) {
    q.matter in t.matters && t.matters[q.matter].allocation in t.allocations &&
    t.allocations[t.matters[q.matter].allocation].need == need
  }

  /** Never charged when entitled: a need created with a declared Section 12 category is never the subject of a
      quote nor of a paid choice, whatever happens afterwards. */
  lemma EntitledIsNeverCharged(w: World, need: Id, citizen: Id, input: Input, steps: seq<Step>)
    requires Valid(w) && Entitled(input) && CreateNeed(w, need, citizen, input).Ok?
    ensures var v := Run(CreateNeed(w, need, citizen, input).value, steps);
            && (forall q :: q in v.quotes ==> !QuotedFor(v.store.tables, v.quotes[q], need))
            && (forall a :: a in v.store.tables.allocations && v.store.tables.allocations[a].need == need ==>
                  v.store.tables.allocations[a].mode != CitizenChoice)
  {
    var start := CreateNeed(w, need, citizen, input).value;
    var v := Run(start, steps);
    NewNeedKeeps(w, need, citizen, input);
    RunKeeps(start, steps);
    DecisionsAreFinal(start, steps, need);
    forall q | q in v.quotes
      ensures !QuotedFor(v.store.tables, v.quotes[q], need)
    {
      QuoteIsOwed(v, q);
    }
    forall a | a in v.store.tables.allocations && v.store.tables.allocations[a].need == need
      ensures v.store.tables.allocations[a].mode != CitizenChoice
    {
      assert ChoiceOk(v.decisions, v.surface, v.store.tables.allocations[a]);
    }
  }

  predicate NobodyAvailable(w: World, roster: Id, pool: set<Id>) {
    forall p :: p in pool ==> !Offered(w.store.memberships, roster, pool, p)
  }

  /** Why rotation refuses, in the order of its checks; none when it assigns somebody. The last line is the insert's:
      a generated key that exists, or a need that is already assigned. */
  function RotationRefusal(w: World, need: Id, roster: Id, pool: set<Id>, id: Id, operator: bool): Option<Refusal> {
    if !Routed(w, need) then Some(NeedNotFound)
    else if w.decisions[need].route == Paid && !operator then Some(RotationNotAllowed)
    else if NobodyAvailable(w, roster, pool) then Some(NoRosterProviderAvailable)
    else if id in w.store.tables.allocations || NeedTaken(w.store.tables.allocations, need, id) then
      Some(Violation(UniqueViolation))
    else None
  }

  /** Whoever is selected, the insert can only fail on the key or on a need that is already assigned. */
  lemma RotationInsertFails(w: World, need: Id, roster: Id, next: Id, id: Id)
    requires SeatsKnown(w.store) && Routed(w, need) && (roster, next) in w.store.memberships
    ensures var r := InsertAllocation(w.store.tables, id, Rotated(need, next, roster));
            if id in w.store.tables.allocations || NeedTaken(w.store.tables.allocations, need, id) then
              r == Err(UniqueViolation)
            else r.Ok?
  {
  }

  // ---- The routes ----

  class Desk {
    var store: Store
    var decisions: map<Id, Decision>
    var surface: map<(Id, Id), nat>
    var quotes: map<Id, Quote>

    function State(): World
      reads this
    {
      World(store, decisions, surface, quotes)
    }

    constructor (w: World)
      ensures State() == w
    {
      store, decisions, surface, quotes := w.store, w.decisions, w.surface, w.quotes;
    }

    /** POST /v1/needs/:id/select */
    method SelectProvider(need: Id, provider: Id, id: Id, eligible: bool) returns (result: Result<(), Refusal>)
      requires Valid(State())
      modifies this`store
      ensures Valid(State())
      ensures State() == Kept(old(State()), Select(old(State()), need, provider, id, eligible))
      ensures result.Ok? <==> Select(old(State()), need, provider, id, eligible).Ok?
      ensures result.Ok? ==> (need, provider) in surface && need in decisions && decisions[need].route == Paid
      ensures result.Err? ==> Select(old(State()), need, provider, id, eligible) == Err(result.error)
    {
      ghost var before := State();
      if need !in store.tables.needs || need !in decisions { return Err(NeedNotFound); }
      if decisions[need].route != Paid { return Err(SelectionNotAllowed); }
      if (need, provider) !in surface { return Err(ProviderNotSurfaced); }
      if !eligible { return Err(ProviderNoLongerEligible); }
      var inserted := InsertAllocation(store.tables, id, Chosen(need, provider, surface[(need, provider)]));
      if inserted.Err? { return Err(Violation(inserted.error)); }
      SelectKeeps(before, need, provider, id, eligible);
      store := store.(tables := inserted.value);
      return Ok(());
    }

    /** POST /v1/needs/:id/rotate; rows are the query's rows in the order of the scan. */
    method RotateNeed(need: Id, roster: Id, pool: set<Id>, rows: seq<Id>, id: Id, operator: bool, now: int)
        returns (result: Result<Id, Refusal>)
      requires Valid(State())
      requires forall p :: p in rows <==> Candidate(store.memberships, roster, pool, p)
      modifies this`store
      ensures Valid(State())
      ensures result.Err? <==> RotationRefusal(old(State()), need, roster, pool, id, operator).Some?
      ensures result.Err? ==> RotationRefusal(old(State()), need, roster, pool, id, operator) == Some(result.error)
      ensures result.Err? ==> State() == old(State())
      ensures result.Ok? ==> IsNext(old(store).memberships, roster, pool, result.value)
      ensures result.Ok? ==>
                State() == Apply(old(State()), Step.RotateNeed(need, roster, pool, result.value, id, operator, now))
      ensures result.Ok? ==>
                id in store.tables.allocations && store.tables.allocations[id] == Rotated(need, result.value, roster)
      ensures result == Err(NoRosterProviderAvailable) ==>
                forall p :: p in pool ==> !Offered(old(store).memberships, roster, pool, p)
      ensures result.Ok? ==> Offered(old(store).memberships, roster, pool, result.value)
      ensures result.Ok? ==>
                forall q :: q in pool && Offered(old(store).memberships, roster, pool, q) ==>
                  SortsFirst(old(store).memberships[(roster, result.value)], old(store).memberships[(roster, q)])
    {
      if need !in store.tables.needs || need !in decisions { return Err(NeedNotFound); }
      if decisions[need].route == Paid && !operator { return Err(RotationNotAllowed); }
      var next := SelectNext(store.memberships, roster, pool, rows);
      if next.None? { return Err(NoRosterProviderAvailable); }
      var row := Rotated(need, next.value, roster);
      RotationInsertFails(State(), need, roster, next.value, id);
      var inserted := InsertAllocation(store.tables, id, row);
      if inserted.Err? { return Err(Violation(inserted.error)); }
      RotateKeeps(State(), need, roster, next.value, id, operator, now);
      assert inserted.value.allocations == store.tables.allocations[id := row];
      store := store.(tables := inserted.value, memberships := TakeSeat(store.memberships, (roster, next.value), now));
      return Ok(next.value);
    }

    /** create_payment_quote */
    method CreatePaymentQuote(r: QuoteRequest, id: Id, holdsRole: bool, now: int) returns (result: Result<Id, Refusal>)
      requires Valid(State())
      modifies this`quotes
      ensures Valid(State())
      ensures State() == Kept(old(State()), CreateQuote(old(State()), r, id, holdsRole, now))
      ensures result == Ok(id) <==> CreateQuote(old(State()), r, id, holdsRole, now).Ok?
      ensures result.Err? ==> CreateQuote(old(State()), r, id, holdsRole, now) == Err(result.error)
      ensures result.Ok? ==> id !in old(quotes) && quotes.Keys == old(quotes).Keys + {id}
      ensures forall q :: q in old(quotes) ==> q in quotes && quotes[q] == old(quotes)[q]
    {
      ghost var before := State();
      var t := store.tables;
      if r.requestId.None? || BlankReason(r.requestId.value) { return Err(RequestIdRequired); }
      if r.matter !in t.matters { return Err(MatterNotFound); }
      var m := t.matters[r.matter];
      if m.provider !in t.providers || m.allocation !in t.allocations { return Err(MatterNotFound); }
      var need := t.allocations[m.allocation].need;
      if need !in decisions { return Err(MatterNotFound); }
      if t.providers[m.provider] != r.actor || !holdsRole { return Err(NotTheProvider); }
      if m.status != Open { return Err(MatterNotOpen); }
      if decisions[need].route != Paid { return Err(RouteNotPaid); }
      var amount, currency := RoundToCents(r.amount), ToChar3(r.currency);
      if amount >= 1000000000000.0 || amount <= -1000000000000.0 { return Err(NumericOverflow); }
      if currency.None? { return Err(CurrencyTooLong); }
      var q := Quote(r.matter, m.provider, amount, currency.value, r.fees, r.expiresAt, now);
      if !QuoteShape(q) { return Err(Violation(CheckViolation)); }
      if id in quotes { return Err(Violation(UniqueViolation)); }
      QuoteKeeps(before, r, id, holdsRole, now);
      quotes := quotes[id := q];
      return Ok(id);
    }
  }
}
