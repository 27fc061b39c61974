/** The directory that a read persists is the one that a citizen's choice is checked against: the inserts of `Directory`
    are steps of `CareAllocation`. */
module DirectoryChoice {
  import opened Sequences
  import opened Eligibility
  import opened SchedulingTables
  import opened CareAllocation
  import Directory

  type Rows = seq<Directory.SurfaceRow>

  predicate HasRow(rows: Rows, p: Id, position: nat) {
    exists i :: 0 <= i < |rows| && rows[i].provider == p && rows[i].position == position
  }

  predicate Stored(surface: map<(Id, Id), nat>, need: Id, p: Id, position: nat) {
    (need, p) in surface && surface[(need, p)] == position
  }

  ghost predicate SameRows(rows: Rows, surface: map<(Id, Id), nat>) {
    forall n: Id, p: Id, k: nat :: HasRow(Directory.RowsFor(rows, n), p, k) <==> Stored(surface, n, p, k)
  }

  /** Both models hold the same rows of directory_surface, and whoever has a counter is a provider. */
  ghost predicate Agree(w: World, db: Directory.Db) {
    (forall p :: p in db.counters ==> p in w.store.tables.providers) && SameRows(db.surface, w.surface)
  }

  /** One insert a row, in order. */
  function StepsOf(rows: Rows): (steps: seq<Step>)
    ensures |steps| == |rows|
    ensures forall i :: 0 <= i < |rows| ==> steps[i] == Surface(rows[i].need, rows[i].provider, rows[i].position)
  {
    MapSeq(rows, (row: Directory.SurfaceRow) => Surface(row.need, row.provider, row.position))
  }

  function Added(surface: map<(Id, Id), nat>, rows: Rows): map<(Id, Id), nat>
    decreases |rows|
  {
    if rows == [] then surface else Added(surface[(rows[0].need, rows[0].provider) := rows[0].position], rows[1..])
  }

  /** Rows that the constraints of directory_surface admit, one after the other, for a need without any. */
  predicate Fits(t: Tables, surface: map<(Id, Id), nat>, need: Id, rows: Rows) {
    && (forall i :: 0 <= i < |rows| ==> rows[i].need == need && rows[i].position > 0 && rows[i].provider in t.providers)
    && (forall i, j :: 0 <= i < j < |rows| ==>
          rows[i].provider != rows[j].provider && rows[i].position != rows[j].position)
    && (forall i :: 0 <= i < |rows| ==>
          (need, rows[i].provider) !in surface && !PositionTaken(surface, need, rows[i].position))
  }

  lemma FitsAfterFirst(t: Tables, surface: map<(Id, Id), nat>, need: Id, rows: Rows)
    requires rows != [] && Fits(t, surface, need, rows)
    ensures Fits(t, surface[(need, rows[0].provider) := rows[0].position], need, rows[1..])
  {
    var after, rest := surface[(need, rows[0].provider) := rows[0].position], rows[1..];
    forall i | 0 <= i < |rest|
      ensures (need, rest[i].provider) !in after && !PositionTaken(after, need, rest[i].position)
    {
      assert rest[i] == rows[i + 1];
      assert !PositionTaken(surface, need, rows[i + 1].position);
    }
  }

  /** Not one of the inserts is refused. */
  lemma {:induction false} InsertsRun(w: World, need: Id, rows: Rows)
    requires Routed(w, need) && w.decisions[need].route == Paid && Fits(w.store.tables, w.surface, need, rows)
    ensures CareAllocation.Run(w, StepsOf(rows)) == w.(surface := Added(w.surface, rows))
    decreases |rows|
  {
    if rows != [] {
      var after := w.(surface := w.surface[(need, rows[0].provider) := rows[0].position]);
      assert CareAllocation.Apply(w, StepsOf(rows)[0]) == after;
      assert StepsOf(rows)[1..] == StepsOf(rows[1..]);
      FitsAfterFirst(w.store.tables, w.surface, need, rows);
      InsertsRun(after, need, rows[1..]);
    }
  }

  lemma {:induction false} AddedMeans(surface: map<(Id, Id), nat>, need: Id, rows: Rows, key: (Id, Id))
    requires forall i :: 0 <= i < |rows| ==> rows[i].need == need
    requires forall i, j :: 0 <= i < j < |rows| ==> rows[i].provider != rows[j].provider
    ensures var after := Added(surface, rows);
            && (forall i :: 0 <= i < |rows| && key == (need, rows[i].provider) ==>
                  key in after && after[key] == rows[i].position)
            && ((forall i :: 0 <= i < |rows| ==> key != (need, rows[i].provider)) ==>
                  (key in after <==> key in surface) && (key in surface ==> after[key] == surface[key]))
    decreases |rows|
  {
    if rows != [] {
      var first := surface[(need, rows[0].provider) := rows[0].position];
      AddedMeans(first, need, rows[1..], key);
      forall i | 0 <= i < |rows| && key == (need, rows[i].provider)
        ensures key in Added(surface, rows) && Added(surface, rows)[key] == rows[i].position
      {
        if i > 0 {
          assert rows[1..][i - 1] == rows[i];
        } else {
          assert forall k :: 0 <= k < |rows[1..]| ==> rows[1..][k] == rows[k + 1];
        }
      }
      assert forall k :: 0 <= k < |rows[1..]| ==> rows[1..][k] == rows[k + 1];
    }
  }

  lemma NothingStored(rows: Rows, surface: map<(Id, Id), nat>, need: Id)
    requires SameRows(rows, surface) && Directory.RowsFor(rows, need) == []
    ensures forall key :: key in surface ==> key.0 != need
  {
    forall key | key in surface
      ensures key.0 != need
    {
      assert Stored(surface, key.0, key.1, surface[key]);
      assert HasRow(Directory.RowsFor(rows, key.0), key.1, surface[key]);
    }
  }

  lemma NewRowsFit(w: World, db: Directory.Db, rank: Id -> int, need: Id, filter: Directory.Filter,
                   cards: seq<Directory.Card>, rows: Rows)
    requires Agree(w, db) && Directory.RowsFor(db.surface, need) == []
    requires Directory.Eligible(db.counters, cards) && Directory.GeneratedAs(db, rank, need, filter, cards, rows)
    ensures Fits(w.store.tables, w.surface, need, rows)
  {
    Directory.OrderedIsPlaceable(db, rank, cards);
    NothingStored(db.surface, w.surface, need);
  }

  lemma AddedRowsAgree(was: Rows, now: Rows, surface: map<(Id, Id), nat>, need: Id, rows: Rows)
    requires SameRows(was, surface) && Directory.RowsFor(was, need) == [] && Directory.RowsFor(now, need) == rows
    requires forall n :: n != need ==> Directory.RowsFor(now, n) == Directory.RowsFor(was, n)
    requires forall i :: 0 <= i < |rows| ==> rows[i].need == need
    requires forall i, j :: 0 <= i < j < |rows| ==> rows[i].provider != rows[j].provider
    ensures SameRows(now, Added(surface, rows))
  {
    NothingStored(was, surface, need);
    forall n: Id, p: Id, k: nat
      ensures HasRow(Directory.RowsFor(now, n), p, k) <==> Stored(Added(surface, rows), n, p, k)
    {
      assert HasRow(Directory.RowsFor(was, n), p, k) <==> Stored(surface, n, p, k);
      AddedMeans(surface, need, rows, (n, p));
    }
  }

  /** A first read's inserts are a run of the allocation state machine, and both models still hold the same rows. */
  lemma GenerationIsARun(w: World, db: Directory.Db, rank: Id -> int, need: Id, filter: Directory.Filter,
                         cards: seq<Directory.Card>)
    requires Directory.Valid(db) && Agree(w, db) && need in db.needs && !db.needs[need].generated
    requires Directory.Eligible(db.counters, cards)
    requires (db.needs[need].filter.None? || db.needs[need].filter.value == filter)
    requires Routed(w, need) && w.decisions[need].route == Paid
    ensures Directory.Get(db, rank, need, filter, cards).Ok?
    ensures var after := Directory.Get(db, rank, need, filter, cards).value.0;
            var rows := Directory.RowsFor(after.surface, need);
            var v := CareAllocation.Run(w, StepsOf(rows));
            v == w.(surface := Added(w.surface, rows)) && Agree(v, after)
  {
    Directory.FirstReadSucceeds(db, rank, need, filter, cards);
    var after := Directory.Get(db, rank, need, filter, cards).value.0;
    var rows := Directory.RowsFor(after.surface, need);
    assert Directory.RowsFor(db.surface, need) == [] by { assert Directory.NeedOk(db, need); }
    NewRowsFit(w, db, rank, need, filter, cards, rows);
    InsertsRun(w, need, rows);
    AddedRowsAgree(db.surface, after.surface, w.surface, need, rows);
  }

  lemma ShownIsStored(rows: Rows, surface: map<(Id, Id), nat>, need: Id, shown: seq<Directory.Card>, provider: Id,
                      all: Rows)
    requires rows == Directory.RowsFor(all, need) && SameRows(all, surface) && Directory.WellPlaced(rows)
    requires |shown| == |rows| && forall i :: 0 <= i < |rows| ==> rows[i].card == shown[i]
    ensures (need, provider) !in surface <==> forall i :: 0 <= i < |shown| ==> shown[i].provider != provider
    ensures forall i :: 0 <= i < |shown| && shown[i].provider == provider ==> Stored(surface, need, provider, i + 1)
  {
    forall i | 0 <= i < |shown| && shown[i].provider == provider
      ensures Stored(surface, need, provider, i + 1)
    {
      assert rows[i].position == i + 1 && rows[i].provider == provider;
      assert HasRow(rows, provider, i + 1);
    }
    if (need, provider) in surface {
      assert Stored(surface, need, provider, surface[(need, provider)]);
      var i :| 0 <= i < |rows| && rows[i].provider == provider && rows[i].position == surface[(need, provider)];
      assert shown[i].provider == provider;
    }
  }

  /** An eligible provider is refused as not surfaced exactly if not shown, and is otherwise recorded with the place. */
  predicate ChoiceMatches(w: World, shown: seq<Directory.Card>, need: Id, provider: Id, id: Id) {
    var choice := Select(w, need, provider, id, true);
    && (choice == Err(ProviderNotSurfaced) <==> forall i :: 0 <= i < |shown| ==> shown[i].provider != provider)
    && (forall i :: 0 <= i < |shown| && shown[i].provider == provider && choice.Ok? ==>
          id in choice.value.store.tables.allocations &&
          choice.value.store.tables.allocations[id].position == Some(i + 1))
  }

  lemma ChoosingMatches(w: World, shown: seq<Directory.Card>, need: Id, provider: Id, id: Id)
    requires Routed(w, need) && w.decisions[need].route == Paid
    requires (need, provider) !in w.surface <==> forall i :: 0 <= i < |shown| ==> shown[i].provider != provider
    requires forall i :: 0 <= i < |shown| && shown[i].provider == provider ==> Stored(w.surface, need, provider, i + 1)
    ensures ChoiceMatches(w, shown, need, provider, id)
  {
  }

  // ---- Both state machines in one run ----

  datatype Joint = Joint(world: World, db: Directory.Db)

  /** A step of the allocation state machine, or a directory read with the eligibility query's answer. */
  datatype Event =
    | Care(step: Step)
    | Read(rank: Id -> int, need: Id, filter: Directory.Filter, cards: seq<Directory.Card>)

  /** A provider comes with its counter and a need with its directory columns; only a first read writes surface rows. */
  function Apply(j: Joint, e: Event): Joint {
    match e
    case Care(step) => if step.Surface? then j else Joint(CareAllocation.Apply(j.world, step), Registered(j, step))
    case Read(rank, need, filter, cards) =>
      if !FirstRead(j, rank, need, filter, cards) then j
      else
        var after := Directory.Get(j.db, rank, need, filter, cards).value.0;
        Joint(CareAllocation.Run(j.world, StepsOf(Directory.RowsFor(after.surface, need))), after)
  }

  function Registered(j: Joint, step: Step): Directory.Db {
    match step
    case NewProvider(id, _) => Directory.Apply(j.db, Directory.Register(id))
    case NewNeed(id, citizen, input) =>
      if CreateNeed(j.world, id, citizen, input).Ok? then Directory.Apply(j.db, Directory.NewNeed(id)) else j.db
    case _ => j.db
  }

  predicate FirstRead(j: Joint, rank: Id -> int, need: Id, filter: Directory.Filter, cards: seq<Directory.Card>) {
    && Routed(j.world, need) && j.world.decisions[need].route == Paid
    && need in j.db.needs && !j.db.needs[need].generated && Directory.Eligible(j.db.counters, cards)
    && Directory.Get(j.db, rank, need, filter, cards).Ok?
  }

  function Run(j: Joint, events: seq<Event>): Joint
    decreases |events|
  {
    if events == [] then j else Run(Apply(j, events[0]), events[1..])
  }

  const START := Joint(EMPTY_WORLD, Directory.EMPTY)

  /** A choice records the place of its provider in the directory. */
  predicate PlacesOk(surface: map<(Id, Id), nat>, allocations: map<Id, Allocation>) {
    forall a :: a in allocations && allocations[a].mode == CitizenChoice ==>
      (allocations[a].need, allocations[a].provider) in surface &&
      allocations[a].position == Some(surface[(allocations[a].need, allocations[a].provider)])
  }

  ghost predicate Invariant(j: Joint) {
    && Valid(j.world) && Directory.Valid(j.db) && Agree(j.world, j.db)
    && PlacesOk(j.world.surface, j.world.store.tables.allocations)
  }

  lemma SurfaceStays(w: World, step: Step)
    requires !step.Surface?
    ensures CareAllocation.Apply(w, step).surface == w.surface
  {
  }

  predicate Allocates(step: Step) {
    step.SelectProvider? || step.RotateNeed?
  }

  predicate EndsAllocation(step: Step) {
    step.DeclineBooking? || step.CancelBooking? || step.CompleteAllocation?
  }

  lemma AllocatingKeepsPlaces(w: World, step: Step)
    requires Allocates(step) && PlacesOk(w.surface, w.store.tables.allocations)
    ensures PlacesOk(w.surface, CareAllocation.Apply(w, step).store.tables.allocations)
  {
  }

  lemma EndingKeepsPlaces(w: World, step: Step)
    requires EndsAllocation(step) && PlacesOk(w.surface, w.store.tables.allocations)
    ensures PlacesOk(w.surface, CareAllocation.Apply(w, step).store.tables.allocations)
  {
  }

  lemma OthersLeaveAllocations(w: World, step: Step)
    requires !Allocates(step) && !EndsAllocation(step)
    ensures CareAllocation.Apply(w, step).store.tables.allocations == w.store.tables.allocations
  {
  }

  lemma StepKeepsPlaces(w: World, step: Step)
    requires PlacesOk(w.surface, w.store.tables.allocations)
    ensures PlacesOk(w.surface, CareAllocation.Apply(w, step).store.tables.allocations)
  {
    if Allocates(step) {
      AllocatingKeepsPlaces(w, step);
    } else if EndsAllocation(step) {
      EndingKeepsPlaces(w, step);
    } else {
      OthersLeaveAllocations(w, step);
    }
  }

  lemma ProvidersStay(w: World, step: Step, p: Id)
    requires p in w.store.tables.providers
    ensures p in CareAllocation.Apply(w, step).store.tables.providers
  {
  }

  lemma NewProviderIsKnown(w: World, id: Id, user: Id)
    ensures id in CareAllocation.Apply(w, Step.NewProvider(id, user)).store.tables.providers
  {
  }

  lemma RegisteredIsValid(j: Joint, step: Step)
    requires Directory.Valid(j.db)
    ensures Directory.Valid(Registered(j, step)) && Registered(j, step).surface == j.db.surface
    ensures forall p :: p in Registered(j, step).counters ==> p in j.db.counters || (step.NewProvider? && step.id == p)
  {
    if step.NewProvider? { Directory.StepKeeps(j.db, Directory.Register(step.id)); }
    if step.NewNeed? { Directory.StepKeeps(j.db, Directory.NewNeed(step.id)); }
  }

  lemma CareKeeps(j: Joint, step: Step)
    requires Invariant(j) && !step.Surface?
    ensures Invariant(Apply(j, Care(step)))
  {
    var v, db := CareAllocation.Apply(j.world, step), Registered(j, step);
    CareAllocation.StepKeeps(j.world, step);
    SurfaceStays(j.world, step);
    StepKeepsPlaces(j.world, step);
    RegisteredIsValid(j, step);
    forall p | p in db.counters
      ensures p in v.store.tables.providers
    {
      if p in j.db.counters {
        ProvidersStay(j.world, step, p);
      } else {
        NewProviderIsKnown(j.world, p, step.user);
      }
    }
  }

  lemma AddingKeepsPlaces(surface: map<(Id, Id), nat>, allocations: map<Id, Allocation>, need: Id, rows: Rows)
    requires PlacesOk(surface, allocations) && (forall key :: key in surface ==> key.0 != need)
    requires forall i :: 0 <= i < |rows| ==> rows[i].need == need
    requires forall i, j :: 0 <= i < j < |rows| ==> rows[i].provider != rows[j].provider
    ensures PlacesOk(Added(surface, rows), allocations)
  {
    forall a | a in allocations && allocations[a].mode == CitizenChoice
      ensures var key := (allocations[a].need, allocations[a].provider);
              key in Added(surface, rows) && allocations[a].position == Some(Added(surface, rows)[key])
    {
      AddedMeans(surface, need, rows, (allocations[a].need, allocations[a].provider));
    }
  }

  lemma FirstReadKeeps(j: Joint, rank: Id -> int, need: Id, filter: Directory.Filter, cards: seq<Directory.Card>)
    requires Invariant(j) && FirstRead(j, rank, need, filter, cards)
    ensures Invariant(Apply(j, Read(rank, need, filter, cards)))
    ensures Apply(j, Read(rank, need, filter, cards)).world ==
            j.world.(surface := Apply(j, Read(rank, need, filter, cards)).world.surface)
  {
    var after := Directory.Get(j.db, rank, need, filter, cards).value.0;
    var rows := Directory.RowsFor(after.surface, need);
    GenerationIsARun(j.world, j.db, rank, need, filter, cards);
    Directory.FirstReadPersists(j.db, rank, need, filter, cards);
    Directory.FirstReadSucceeds(j.db, rank, need, filter, cards);
    CareAllocation.RunKeeps(j.world, StepsOf(rows));
    assert Directory.RowsFor(j.db.surface, need) == [] by { assert Directory.NeedOk(j.db, need); }
    NothingStored(j.db.surface, j.world.surface, need);
    Directory.GeneratedIsWellPlaced(j.db, rank, need, filter, cards, rows);
    AddingKeepsPlaces(j.world.surface, j.world.store.tables.allocations, need, rows);
  }

  lemma EventKeeps(j: Joint, e: Event)
    requires Invariant(j)
    ensures Invariant(Apply(j, e))
  {
    match e {
      case Care(step) => if !step.Surface? { CareKeeps(j, step); }
      case Read(rank, need, filter, cards) =>
        if FirstRead(j, rank, need, filter, cards) { FirstReadKeeps(j, rank, need, filter, cards); }
    }
  }

  /** Every provider has a counter and every decided need its directory columns, and nobody else has. */
  ghost predicate Registers(j: Joint) {
    && (forall p :: p in j.db.counters <==> p in j.world.store.tables.providers)
    && (forall n :: n in j.db.needs <==> n in j.world.decisions)
    && (forall n :: n in j.world.decisions ==> n in j.world.store.tables.needs)
  }

  lemma CareRegisters(j: Joint, step: Step)
    requires Registers(j) && !step.Surface?
    ensures Registers(Apply(j, Care(step)))
  {
    if !step.NewProvider? { ProvidersAreInserted(j.world, step); }
    if !step.NewNeed? { DecisionsAreInserted(j.world, step); }
    DecisionsHaveNeeds(j.world, step);
  }

  lemma AllocatingLeavesProviders(w: World, step: Step)
    requires Allocates(step) || EndsAllocation(step)
    ensures CareAllocation.Apply(w, step).store.tables.providers == w.store.tables.providers
  {
  }

  lemma ProvidersAreInserted(w: World, step: Step)
    requires !step.NewProvider?
    ensures CareAllocation.Apply(w, step).store.tables.providers == w.store.tables.providers
  {
    if Allocates(step) || EndsAllocation(step) { AllocatingLeavesProviders(w, step); }
  }

  lemma DecisionsAreInserted(w: World, step: Step)
    requires !step.NewNeed?
    ensures CareAllocation.Apply(w, step).decisions == w.decisions
  {
  }

  lemma DecisionsHaveNeeds(w: World, step: Step)
    requires forall n :: n in w.decisions ==> n in w.store.tables.needs
    ensures var v := CareAllocation.Apply(w, step); forall n :: n in v.decisions ==> n in v.store.tables.needs
  {
    forall n | n in w.store.tables.needs
      ensures n in CareAllocation.Apply(w, step).store.tables.needs
    {
      NeedsStay(w, step, n);
    }
    if !step.NewNeed? { DecisionsAreInserted(w, step); }
  }

  lemma ReadRegisters(j: Joint, rank: Id -> int, need: Id, filter: Directory.Filter, cards: seq<Directory.Card>)
    requires Invariant(j) && Registers(j)
    ensures Registers(Apply(j, Read(rank, need, filter, cards)))
  {
    if FirstRead(j, rank, need, filter, cards) {
      FirstReadKeeps(j, rank, need, filter, cards);
      Directory.FirstReadSucceeds(j.db, rank, need, filter, cards);
    }
  }

  lemma {:induction false} RunRegisters(j: Joint, events: seq<Event>)
    requires Invariant(j) && Registers(j)
    ensures Invariant(Run(j, events)) && Registers(Run(j, events))
    decreases |events|
  {
    if events != [] {
      EventKeeps(j, events[0]);
      match events[0] {
        case Care(step) => if !step.Surface? { CareRegisters(j, step); }
        case Read(rank, need, filter, cards) => ReadRegisters(j, rank, need, filter, cards);
      }
      RunRegisters(Apply(j, events[0]), events[1..]);
    }
  }

  /** In every run of both: who is a provider has a counter, and a need that was routed has its directory columns. */
  lemma EveryoneIsRegistered(events: seq<Event>)
    ensures Registers(Run(START, events))
  {
    StartIsValid();
    RunRegisters(START, events);
  }

  /** And a read generates a directory exactly on a paid need without one, for its first or the same filters. */
  lemma FirstReadIff(j: Joint, rank: Id -> int, need: Id, filter: Directory.Filter, cards: seq<Directory.Card>)
    requires Invariant(j) && Registers(j)
    requires forall i, k :: 0 <= i < k < |cards| ==> cards[i].provider != cards[k].provider
    requires forall i :: 0 <= i < |cards| ==> cards[i].provider in j.world.store.tables.providers
    ensures var r := Apply(j, Read(rank, need, filter, cards));
            if need in j.world.decisions && j.world.decisions[need].route == Paid && !j.db.needs[need].generated &&
               (j.db.needs[need].filter == None || j.db.needs[need].filter == Some(filter)) then
              && r.db.needs == j.db.needs[need := Directory.NeedRow(Some(filter), true)]
              && |Directory.RowsFor(r.db.surface, need)| == |cards|
            else r == j
  {
    if need in j.world.decisions && j.world.decisions[need].route == Paid && !j.db.needs[need].generated &&
       (j.db.needs[need].filter == None || j.db.needs[need].filter == Some(filter)) {
      Directory.FirstReadSucceeds(j.db, rank, need, filter, cards);
    }
  }

  /** The need was routed as paid and its directory, once generated, shows these cards in this order. */
  predicate Shows(j: Joint, need: Id, shown: seq<Directory.Card>) {
    var rows := Directory.RowsFor(j.db.surface, need);
    && Routed(j.world, need) && j.world.decisions[need].route == Paid
    && need in j.db.needs && j.db.needs[need].generated
    && |rows| == |shown| && forall i :: 0 <= i < |rows| ==> rows[i].card == shown[i]
  }

  lemma CareStillShows(j: Joint, step: Step, need: Id, shown: seq<Directory.Card>)
    requires Shows(j, need, shown)
    ensures Shows(Apply(j, Care(step)), need, shown)
  {
    StepKeepsDecisions(j.world, step, need);
    NeedsStay(j.world, step, need);
  }

  lemma NeedsStay(w: World, step: Step, need: Id)
    requires need in w.store.tables.needs
    ensures need in CareAllocation.Apply(w, step).store.tables.needs
  {
  }

  lemma ReadStillShows(j: Joint, rank: Id -> int, other: Id, filter: Directory.Filter, cards: seq<Directory.Card>,
                       need: Id, shown: seq<Directory.Card>)
    requires Invariant(j) && Shows(j, need, shown)
    ensures Shows(Apply(j, Read(rank, other, filter, cards)), need, shown)
  {
    if FirstRead(j, rank, other, filter, cards) {
      FirstReadKeeps(j, rank, other, filter, cards);
      Directory.FirstReadSucceeds(j.db, rank, other, filter, cards);
    }
  }

  lemma {:induction false} RunStillShows(j: Joint, events: seq<Event>, need: Id, shown: seq<Directory.Card>)
    requires Invariant(j) && Shows(j, need, shown)
    ensures Invariant(Run(j, events)) && Shows(Run(j, events), need, shown)
    decreases |events|
  {
    if events != [] {
      EventKeeps(j, events[0]);
      match events[0] {
        case Care(step) => CareStillShows(j, step, need, shown);
        case Read(rank, other, filter, cards) => ReadStillShows(j, rank, other, filter, cards, need, shown);
      }
      RunStillShows(Apply(j, events[0]), events[1..], need, shown);
    }
  }

  lemma {:induction false} RunKeeps(j: Joint, events: seq<Event>)
    requires Invariant(j)
    ensures Invariant(Run(j, events))
    decreases |events|
  {
    if events != [] {
      EventKeeps(j, events[0]);
      RunKeeps(Apply(j, events[0]), events[1..]);
    }
  }

  lemma StartIsValid()
    ensures Invariant(START)
  {
    EmptyWorldIsValid();
    Directory.EmptyIsValid();
  }

  /** Every choice made for the need is of a provider that was shown, and records the place at which it was shown. */
  predicate ChosenAsShown(w: World, need: Id, shown: seq<Directory.Card>) {
    var rows := w.store.tables.allocations;
    forall a :: a in rows && rows[a].need == need && rows[a].mode == CitizenChoice ==> ShownAs(shown, rows[a])
  }

  predicate ShownAs(shown: seq<Directory.Card>, a: Allocation) {
    exists i :: 0 <= i < |shown| && shown[i].provider == a.provider && a.position == Some(i + 1)
  }

  lemma ShownIsChosen(j: Joint, need: Id, shown: seq<Directory.Card>)
    requires Invariant(j) && Shows(j, need, shown)
    ensures ChosenAsShown(j.world, need, shown)
  {
    var rows := Directory.RowsFor(j.db.surface, need);
    assert Directory.WellPlaced(rows) by { assert Directory.NeedOk(j.db, need); }
    var allocations := j.world.store.tables.allocations;
    forall a | a in allocations && allocations[a].need == need && allocations[a].mode == CitizenChoice
      ensures ShownAs(shown, allocations[a])
    {
      var p := allocations[a].provider;
      assert Stored(j.world.surface, need, p, j.world.surface[(need, p)]);
      var i :| 0 <= i < |rows| && rows[i].provider == p && rows[i].position == j.world.surface[(need, p)];
      assert shown[i].provider == p;
    }
  }

  lemma ShownIsChoosable(j: Joint, need: Id, shown: seq<Directory.Card>, provider: Id, id: Id)
    requires Invariant(j) && Shows(j, need, shown)
    ensures ChoiceMatches(j.world, shown, need, provider, id)
  {
    var rows := Directory.RowsFor(j.db.surface, need);
    assert Directory.WellPlaced(rows) by { assert Directory.NeedOk(j.db, need); }
    ShownIsStored(rows, j.world.surface, need, shown, provider, j.db.surface);
    ChoosingMatches(j.world, shown, need, provider, id);
  }

  lemma FirstReadShows(j: Joint, rank: Id -> int, need: Id, filter: Directory.Filter, cards: seq<Directory.Card>)
    requires Invariant(j) && FirstRead(j, rank, need, filter, cards)
    ensures Shows(Apply(j, Read(rank, need, filter, cards)), need,
                  Directory.Get(j.db, rank, need, filter, cards).value.1)
  {
    FirstReadKeeps(j, rank, need, filter, cards);
    Directory.FirstReadSucceeds(j.db, rank, need, filter, cards);
  }

  /** In every run of both: from the first read of a need on, and whatever happens then, a citizen can choose exactly
      the providers that the response showed, and every choice ever made records the place at which it was shown. */
  lemma ChoicesAreWhatWasShown(before: seq<Event>, rank: Id -> int, need: Id, filter: Directory.Filter,
                               cards: seq<Directory.Card>, events: seq<Event>, provider: Id, id: Id)
    requires FirstRead(Run(START, before), rank, need, filter, cards)
    ensures var j := Run(START, before);
            var shown := Directory.Get(j.db, rank, need, filter, cards).value.1;
            var later := Run(Apply(j, Read(rank, need, filter, cards)), events).world;
            ChoiceMatches(later, shown, need, provider, id) && ChosenAsShown(later, need, shown)
  {
    StartIsValid();
    RunKeeps(START, before);
    var j := Run(START, before);
    var shown := Directory.Get(j.db, rank, need, filter, cards).value.1;
    var first := Apply(j, Read(rank, need, filter, cards));
    FirstReadKeeps(j, rank, need, filter, cards);
    FirstReadShows(j, rank, need, filter, cards);
    RunStillShows(first, events, need, shown);
    ShownIsChoosable(Run(first, events), need, shown, provider, id);
    ShownIsChosen(Run(first, events), need, shown);
  }
}
