/** Rotation by concurrent transactions: row locks on the need, on the membership and on the provider, and
    SKIP LOCKED instead of waiting for the latter two. A commit installs the rows that the transaction has written. */
module ConcurrentRotation {
  import opened Sequences
  import opened Eligibility
  import opened SchedulingTables
  import opened BookingRoutes
  import opened Rotation
  import opened CareAllocation

  /** The uncommitted rows of a rotation: the allocation under its key, and the member's seat. */
  datatype Written = Written(id: Id, now: int, row: Allocation, seat: Membership)

  /** A rotation in flight: it holds its need, from the candidate query on also a provider and that provider's seat in
      the roster, and from its INSERT and UPDATE on their rows. */
  datatype Claim = Claim(need: Id, roster: Id, operator: bool, provider: Option<Id>, written: Option<Written>)

  datatype System = System(world: World, claims: map<nat, Claim>)

  datatype Event =
    | Begin(tx: nat, need: Id, roster: Id, operator: bool)
    | Lock(tx: nat, provider: Id)
    | Write(tx: nat, id: Id, now: int)
    | Commit(tx: nat)
    | Abort(tx: nat)
    | Other(step: CareAllocation.Step)

  predicate NeedLocked(claims: map<nat, Claim>, need: Id) {
    exists tx :: tx in claims && claims[tx].need == need
  }

  predicate ProviderLocked(claims: map<nat, Claim>, provider: Id) {
    exists tx :: tx in claims && claims[tx].provider == Some(provider)
  }

  predicate SeatLocked(claims: map<nat, Claim>, seat: Seat) {
    exists tx :: tx in claims && claims[tx].provider == Some(seat.1) && claims[tx].roster == seat.0
  }

  /** The key of an allocation that is being inserted. */
  predicate KeyPending(claims: map<nat, Claim>, id: Id) {
    exists tx :: tx in claims && claims[tx].written.Some? && claims[tx].written.value.id == id
  }

  predicate EndsOnLockedSeat(s: System, id: Id) {
    SeatOfBooking(s.world, id).Some? && SeatLocked(s.claims, SeatOfBooking(s.world, id).value)
  }

  /** The step would have to wait for a row that a claim holds or a key that one inserts. */
  predicate Waits(s: System, step: CareAllocation.Step) {
    match step
    case SelectProvider(need, provider, id, _) =>
      NeedLocked(s.claims, need) || ProviderLocked(s.claims, provider) || KeyPending(s.claims, id)
    case AdjustSeat(roster, provider, _, _, _) => SeatLocked(s.claims, (roster, provider))
    case DeclineBooking(_, id, _, _) => EndsOnLockedSeat(s, id)
    case CancelBooking(_, id, _) => EndsOnLockedSeat(s, id)
    case RotateNeed(_, _, _, _, _, _, _) => true
    case _ => false
  }

  /** The INSERT and the UPDATE on what is committed now: their rows are kept, or one of them fails. */
  function AfterWrite(w: World, c: Claim, id: Id, now: int): Option<Claim>
    requires c.provider.Some?
  {
    match Rotate(w, c.need, c.roster, c.provider, id, c.operator, now)
    case Err(_) => None
    case Ok(after) =>
      var row, seat :=
        RowAt(after.store.tables.allocations, id), RowAt(after.store.memberships, (c.roster, c.provider.value));
      if row.None? || seat.None? then None else Some(c.(written := Some(Written(id, now, row.value, seat.value))))
  }

  function Install(w: World, c: Claim): World {
    match c.written
    case None => w
    case Some(rows) =>
      var t := w.store.tables.(allocations := w.store.tables.allocations[rows.id := rows.row]);
      var seats := if c.provider.Some? then w.store.memberships[(c.roster, c.provider.value) := rows.seat]
                   else w.store.memberships;
      w.(store := w.store.(tables := t, memberships := seats))
  }

  /** Steps that wait or are refused change nothing; a claim whose statement fails rolls back. Which assignable seat the
      query locks is left open, so that a stale sort order is covered. */
  function Apply(s: System, e: Event): System {
    match e
    case Begin(tx, need, roster, operator) =>
      if tx in s.claims || NeedLocked(s.claims, need) || !Routed(s.world, need) ||
         (s.world.decisions[need].route == Paid && !operator) then s
      else s.(claims := s.claims[tx := Claim(need, roster, operator, None, None)])
    case Lock(tx, p) =>
      if tx !in s.claims || s.claims[tx].provider.Some? || ProviderLocked(s.claims, p) then s
      else
        var seat := (s.claims[tx].roster, p);
        if seat !in s.world.store.memberships || !Assignable(s.world.store.memberships[seat]) then s
        else s.(claims := s.claims[tx := s.claims[tx].(provider := Some(p))])
    case Write(tx, id, now) =>
      if tx !in s.claims || s.claims[tx].provider.None? || s.claims[tx].written.Some? || KeyPending(s.claims, id) then s
      else
        var c := AfterWrite(s.world, s.claims[tx], id, now);
        s.(claims := if c.Some? then s.claims[tx := c.value] else s.claims - {tx})
    case Commit(tx) =>
      if tx !in s.claims || s.claims[tx].written.None? then s
      else System(Install(s.world, s.claims[tx]), s.claims - {tx})
    case Abort(tx) => s.(claims := s.claims - {tx})
    case Other(step) => if Waits(s, step) then s else s.(world := CareAllocation.Apply(s.world, step))
  }

  function Run(s: System, events: seq<Event>): System
    decreases |events|
  {
    if events == [] then s else Run(Apply(s, events[0]), events[1..])
  }

  const START := System(EMPTY_WORLD, map[])

  // ---- The invariant ----

  /** The stored rows are what the statements would write now. */
  predicate WrittenOk(w: World, c: Claim, rows: Written) {
    && c.provider.Some? && (c.roster, c.provider.value) in w.store.memberships
    && rows.row == Rotated(c.need, c.provider.value, c.roster)
    && rows.seat == Taken(w.store.memberships[(c.roster, c.provider.value)], rows.now)
    && rows.id !in w.store.tables.allocations && !NeedTaken(w.store.tables.allocations, c.need, rows.id)
  }

  /** What a claim was granted on is still so. */
  predicate ClaimOk(w: World, c: Claim) {
    && Routed(w, c.need) && (w.decisions[c.need].route == Paid ==> c.operator)
    && (c.provider.Some? ==> HasRoom(w.store.memberships, c.roster, c.provider.value))
    && (c.written.Some? ==> WrittenOk(w, c, c.written.value))
  }

  predicate ClaimsOk(w: World, claims: map<nat, Claim>) {
    forall tx :: tx in claims ==> ClaimOk(w, claims[tx])
  }

  /** Two rotations in flight share neither a need nor a provider nor a key. */
  predicate Separate(c: Claim, d: Claim) {
    && c.need != d.need && (c.provider.Some? ==> c.provider != d.provider)
    && (c.written.Some? && d.written.Some? ==> c.written.value.id != d.written.value.id)
  }

  predicate Apart(claims: map<nat, Claim>) {
    forall s, t :: s in claims && t in claims && s != t ==> Separate(claims[s], claims[t])
  }

  predicate Invariant(s: System) {
    Valid(s.world) && ClaimsOk(s.world, s.claims) && Apart(s.claims)
  }

  // ---- A claim's rows, installed, are a rotation ----

  /** The rotation that a claim stands for: of the providers it could lock, its own. */
  function StepOf(c: Claim): CareAllocation.Step
    requires c.provider.Some? && c.written.Some?
  {
    RotateNeed(c.need, c.roster, {c.provider.value}, c.provider.value, c.written.value.id, c.operator,
               c.written.value.now)
  }

  lemma InstallingIsTheStep(w: World, c: Claim)
    requires Valid(w) && ClaimOk(w, c) && c.provider.Some? && c.written.Some?
    ensures Install(w, c) == CareAllocation.Apply(w, StepOf(c))
  {
    var rows := c.written.value;
    assert IsNext(w.store.memberships, c.roster, {c.provider.value}, c.provider.value);
    RotationInsertFails(w, c.need, c.roster, c.provider.value, rows.id);
  }

  /** The statements go through exactly if the key is new and the need is not yet assigned. */
  lemma WritingSucceedsIff(w: World, c: Claim, id: Id, now: int)
    requires Valid(w) && ClaimOk(w, c) && c.provider.Some? && c.written.None?
    ensures AfterWrite(w, c, id, now).None? <==>
              id in w.store.tables.allocations || NeedTaken(w.store.tables.allocations, c.need, id)
    ensures AfterWrite(w, c, id, now).Some? ==>
              var d := AfterWrite(w, c, id, now).value;
              d == c.(written := d.written) && d.written.Some? && d.written.value.id == id &&
              d.written.value.now == now &&
              ClaimOk(w, d)
  {
    RotationInsertFails(w, c.need, c.roster, c.provider.value, id);
  }

  // ---- Every event keeps it ----

  lemma KeyStaysFree(w: World, step: CareAllocation.Step, id: Id)
    requires !step.RotateNeed? && !(step.SelectProvider? && step.id == id) && id !in w.store.tables.allocations
    ensures id !in CareAllocation.Apply(w, step).store.tables.allocations
  {
  }

  lemma NeedStaysFree(w: World, step: CareAllocation.Step, need: Id, id: Id)
    requires !step.RotateNeed? && !(step.SelectProvider? && step.need == need)
    requires !NeedTaken(w.store.tables.allocations, need, id)
    ensures !NeedTaken(CareAllocation.Apply(w, step).store.tables.allocations, need, id)
  {
  }

  predicate Touches(w: World, step: CareAllocation.Step, c: Claim) {
    || (step.SelectProvider? && step.need == c.need)
    || (step.SelectProvider? && c.written.Some? && step.id == c.written.value.id)
    || (c.provider.Some? && MovesSeat(w, step, (c.roster, c.provider.value)))
  }

  /** A step that leaves a claim's rows alone leaves what it was granted on, and its row versions current. */
  lemma OtherStepsKeepClaim(w: World, step: CareAllocation.Step, c: Claim)
    requires ClaimOk(w, c) && !Touches(w, step, c) && !step.RotateNeed?
    requires var after := CareAllocation.Apply(w, step); DecisionsOk(after.decisions, after.store.tables.needs)
    ensures ClaimOk(CareAllocation.Apply(w, step), c)
  {
    StepKeepsDecisions(w, step, c.need);
    if c.provider.Some? { SeatStays(w, step, (c.roster, c.provider.value)); }
    if c.written.Some? {
      KeyStaysFree(w, step, c.written.value.id);
      NeedStaysFree(w, step, c.need, c.written.value.id);
    }
  }

  lemma FreeStepsTouchNobody(s: System, step: CareAllocation.Step, tx: nat)
    requires !Waits(s, step) && tx in s.claims
    ensures !Touches(s.world, step, s.claims[tx])
  {
    var c := s.claims[tx];
    assert c.provider.Some? ==> SeatLocked(s.claims, (c.roster, c.provider.value));
  }

  /** Neither the claimed need nor the claimed seat is touched by a step that does not have to wait. */
  lemma LockedRowsStay(s: System, step: CareAllocation.Step, c: Claim)
    requires ClaimOk(s.world, c) && !Waits(s, step) && (exists tx :: tx in s.claims && s.claims[tx] == c)
    requires var w := CareAllocation.Apply(s.world, step); DecisionsOk(w.decisions, w.store.tables.needs)
    ensures ClaimOk(CareAllocation.Apply(s.world, step), c)
  {
    var tx :| tx in s.claims && s.claims[tx] == c;
    FreeStepsTouchNobody(s, step, tx);
    OtherStepsKeepClaim(s.world, step, c);
  }

  lemma OtherKeeps(s: System, step: CareAllocation.Step)
    requires Invariant(s) && !Waits(s, step)
    ensures Invariant(s.(world := CareAllocation.Apply(s.world, step)))
  {
    CareAllocation.StepKeeps(s.world, step);
    var w := CareAllocation.Apply(s.world, step);
    forall tx | tx in s.claims
      ensures ClaimOk(w, s.claims[tx])
    {
      LockedRowsStay(s, step, s.claims[tx]);
    }
  }

  /** Installing one claim's rows leaves every other claim as it was. */
  lemma InstallingLeavesOther(w: World, c: Claim, d: Claim)
    requires ClaimOk(w, c) && ClaimOk(w, d) && Separate(c, d) && Separate(d, c) && c.written.Some?
    ensures ClaimOk(Install(w, c), d)
  {
  }

  lemma CommitIsItsStep(s: System, tx: nat)
    requires Invariant(s) && tx in s.claims && s.claims[tx].written.Some?
    ensures s.claims[tx].provider.Some?
    ensures Apply(s, Commit(tx)) == System(CareAllocation.Apply(s.world, StepOf(s.claims[tx])), s.claims - {tx})
  {
    assert ClaimOk(s.world, s.claims[tx]);
    InstallingIsTheStep(s.world, s.claims[tx]);
  }

  lemma CommitKeeps(s: System, tx: nat)
    requires Invariant(s)
    ensures Invariant(Apply(s, Commit(tx)))
  {
    if tx in s.claims && s.claims[tx].written.Some? {
      var c := s.claims[tx];
      CommitIsItsStep(s, tx);
      CareAllocation.StepKeeps(s.world, StepOf(c));
      forall t | t in s.claims && t != tx
        ensures ClaimOk(Install(s.world, c), s.claims[t])
      {
        assert ClaimOk(s.world, c) && ClaimOk(s.world, s.claims[t]) && Separate(c, s.claims[t]) &&
               Separate(s.claims[t], c);
        InstallingLeavesOther(s.world, c, s.claims[t]);
      }
    }
  }

  lemma WithClaim(w: World, claims: map<nat, Claim>, tx: nat, c: Claim)
    requires ClaimsOk(w, claims) && Apart(claims) && ClaimOk(w, c)
    requires forall t :: t in claims && t != tx ==> Separate(c, claims[t]) && Separate(claims[t], c)
    ensures ClaimsOk(w, claims[tx := c]) && Apart(claims[tx := c])
  {
  }

  lemma WriteKeeps(s: System, tx: nat, id: Id, now: int)
    requires Invariant(s)
    ensures Invariant(Apply(s, Write(tx, id, now)))
  {
    if tx in s.claims && s.claims[tx].provider.Some? && s.claims[tx].written.None? && !KeyPending(s.claims, id) {
      var c := s.claims[tx];
      assert ClaimOk(s.world, c);
      WritingSucceedsIff(s.world, c, id, now);
      var d := AfterWrite(s.world, c, id, now);
      if d.Some? {
        forall t | t in s.claims && t != tx
          ensures Separate(d.value, s.claims[t]) && Separate(s.claims[t], d.value)
        {
          assert Separate(c, s.claims[t]) && Separate(s.claims[t], c);
        }
        WithClaim(s.world, s.claims, tx, d.value);
      }
    }
  }

  lemma GrantKeeps(s: System, e: Event)
    requires Invariant(s) && (e.Begin? || e.Lock? || e.Abort?)
    ensures Invariant(Apply(s, e))
  {
  }

  lemma EventKeeps(s: System, e: Event)
    requires Invariant(s)
    ensures Invariant(Apply(s, e))
  {
    match e {
      case Write(tx, id, now) => WriteKeeps(s, tx, id, now);
      case Commit(tx) => CommitKeeps(s, tx);
      case Other(step) => if !Waits(s, step) { OtherKeeps(s, step); }
      case _ => GrantKeeps(s, e);
    }
  }

  lemma {:induction false} RunKeeps(s: System, events: seq<Event>)
    requires Invariant(s)
    ensures Invariant(Run(s, events))
    decreases |events|
  {
    if events != [] {
      EventKeeps(s, events[0]);
      RunKeeps(Apply(s, events[0]), events[1..]);
    }
  }

  /** Over every interleaving: rotations in flight hold different providers, no seat is over its capacity or
      miscounted, and no need has two assigned allocations. */
  lemma EveryInterleavingIsSafe(events: seq<Event>)
    ensures var s := Run(START, events);
            && Apart(s.claims)
            && Conserved(s.world.store.tables.allocations, s.world.store.memberships)
            && OneActivePerNeed(s.world.store.tables.allocations)
  {
    EmptyWorldIsValid();
    RunKeeps(START, events);
  }

  /** A claim that got its provider writes and commits unless its need is already allocated; then nothing is written. */
  lemma CommitSucceedsUnlessTaken(s: System, tx: nat, id: Id, now: int)
    requires Invariant(s) && tx in s.claims && s.claims[tx].provider.Some? && s.claims[tx].written.None?
    requires id !in s.world.store.tables.allocations && !KeyPending(s.claims, id)
    ensures var c := s.claims[tx];
            var after := Apply(Apply(s, Write(tx, id, now)), Commit(tx)).world.store;
            if NeedTaken(s.world.store.tables.allocations, c.need, id) then after == s.world.store
            else
              && after.tables.allocations ==
                 s.world.store.tables.allocations[id := Rotated(c.need, c.provider.value, c.roster)]
              && after.memberships == TakeSeat(s.world.store.memberships, (c.roster, c.provider.value), now)
  {
    assert ClaimOk(s.world, s.claims[tx]);
    WritingSucceedsIff(s.world, s.claims[tx], id, now);
  }
}
