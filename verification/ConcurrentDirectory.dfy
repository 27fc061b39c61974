/** Directories generated at the same time: each transaction locks its need, reads the counters, and then inserts and
    counts one candidate after the other, taking the counters' row locks as it goes. */
module ConcurrentDirectory {
  import opened Sequences
  import opened Directory

  /** A generation in flight: the order it decided on, the rows it has inserted, and the counters it has written and so
      holds. None of it is committed. */
  datatype Generation = Generation(need: Id, filter: Filter, cards: seq<Card>, ordered: seq<Candidate>,
                                   rows: seq<SurfaceRow>, counts: map<Id, nat>)

  datatype System = System(db: Db, pending: map<nat, Generation>)

  datatype Event =
    | Begin(tx: nat, rank: Id -> int, need: Id, filter: Filter, cards: seq<Card>)
    | Place(tx: nat)
    | Finish(tx: nat)
    | Abort(tx: nat)
    | AddNeed(id: Id)
    | AddProvider(provider: Id)

  predicate NeedLocked(pending: map<nat, Generation>, need: Id) {
    exists tx :: tx in pending && pending[tx].need == need
  }

  predicate CounterLocked(pending: map<nat, Generation>, tx: nat, provider: Id) {
    exists other :: other in pending && other != tx && provider in pending[other].counts
  }

  /** surfaced_count + 1 on what the transaction sees. */
  function CountUp(counters: map<Id, nat>, counts: map<Id, nat>, p: Id): map<Id, nat>
    requires p in counters
  {
    counts[p := if p in counts then counts[p] + 1 else counters[p] + 1]
  }

  /** The INSERT and the UPDATE for the next candidate; none when one of them fails. */
  function Placed(db: Db, g: Generation): Option<Generation>
    requires |g.rows| < |g.ordered|
  {
    var k, p := |g.rows|, g.ordered[|g.rows|].provider;
    var card := FindCard(g.cards, p);
    if card.None? || Taken(db.surface + g.rows, g.need, p, k + 1) || p !in db.counters then None
    else
      var row := SurfaceRow(g.need, p, k + 1, g.ordered[k].surfacedCount, card.value, g.filter);
      Some(g.(rows := g.rows + [row], counts := CountUp(db.counters, g.counts, p)))
  }

  function Committed(db: Db, g: Generation): Db {
    Db(db.needs[g.need := NeedRow(Some(g.filter), true)], db.surface + g.rows, db.counters + g.counts)
  }

  /** Whoever has to wait for a row lock takes no step; a statement that fails rolls its transaction back. Reads of a
      generated directory write nothing and are not events. */
  function Apply(s: System, e: Event): System {
    match e
    case Begin(tx, rank, need, filter, cards) =>
      if tx in s.pending || NeedLocked(s.pending, need) || need !in s.db.needs || s.db.needs[need].generated ||
         (s.db.needs[need].filter.Some? && s.db.needs[need].filter.value != filter) ||
         !Eligible(s.db.counters, cards) then s
      else s.(pending := s.pending[tx := Generation(need, filter, cards, Ordered(s.db, rank, cards), [], map[])])
    case Place(tx) =>
      if tx !in s.pending || |s.pending[tx].rows| >= |s.pending[tx].ordered| then s
      else if CounterLocked(s.pending, tx, s.pending[tx].ordered[|s.pending[tx].rows|].provider) then s
      else
        var next := Placed(s.db, s.pending[tx]);
        s.(pending := if next.Some? then s.pending[tx := next.value] else s.pending - {tx})
    case Finish(tx) =>
      if tx !in s.pending || |s.pending[tx].rows| != |s.pending[tx].ordered| then s
      else
        var g := s.pending[tx];
        System(if Respond(RowById(g.cards), g.ordered).Ok? then Committed(s.db, g) else s.db, s.pending - {tx})
    case Abort(tx) => s.(pending := s.pending - {tx})
    case AddNeed(id) => s.(db := Directory.Apply(s.db, NewNeed(id)))
    case AddProvider(p) => s.(db := Directory.Apply(s.db, Register(p)))
  }

  function Run(s: System, events: seq<Event>): System
    decreases |events|
  {
    if events == [] then s else Run(Apply(s, events[0]), events[1..])
  }

  const START := System(EMPTY, map[])

  // ---- The invariant ----

  predicate Listed(cards: seq<Card>, p: Id) {
    exists j :: 0 <= j < |cards| && cards[j].provider == p
  }

  /** What the transaction read under its locks is still so, and its own writes are the first of its candidates. */
  ghost predicate PendingOk(db: Db, g: Generation) {
    && g.need in db.needs && !db.needs[g.need].generated
    && Eligible(db.counters, g.cards) && Placeable(db.counters, g.cards, g.ordered)
    && (forall i :: 0 <= i < |g.ordered| ==> Listed(g.cards, g.ordered[i].provider))
    && PlacedSoFar(g.rows, g.need, g.filter, g.cards, g.ordered, |g.rows|)
    && (forall p :: p in g.counts <==> HasRow(g.rows, p))
    && (forall p :: p in g.counts ==> p in db.counters && g.counts[p] == db.counters[p] + 1)
  }

  predicate HasRow(rows: seq<SurfaceRow>, p: Id) {
    exists i :: 0 <= i < |rows| && rows[i].provider == p
  }

  ghost predicate AllPendingOk(db: Db, pending: map<nat, Generation>) {
    forall tx :: tx in pending ==> PendingOk(db, pending[tx])
  }

  /** No two hold one need or one counter. */
  predicate Apart(pending: map<nat, Generation>) {
    forall x, y :: x in pending && y in pending && x != y ==>
      pending[x].need != pending[y].need && pending[x].counts.Keys !! pending[y].counts.Keys
  }

  ghost predicate Invariant(s: System) {
    Valid(s.db) && AllPendingOk(s.db, s.pending) && Apart(s.pending)
  }

  // ---- No statement fails ----

  lemma NextIsFree(db: Db, g: Generation)
    requires PendingOk(db, g) && RowsFor(db.surface, g.need) == [] && |g.rows| < |g.ordered|
    ensures !Taken(db.surface + g.rows, g.need, g.ordered[|g.rows|].provider, |g.rows| + 1)
  {
    var k := |g.rows|;
    forall i | 0 <= i < |db.surface + g.rows| && (db.surface + g.rows)[i].need == g.need
      ensures (db.surface + g.rows)[i].provider != g.ordered[k].provider && (db.surface + g.rows)[i].position != k + 1
    {
      if i < |db.surface| {
        RowsForMembers(db.surface, g.need, i);
      } else {
        assert (db.surface + g.rows)[i] == g.rows[i - |db.surface|];
      }
    }
  }

  lemma FreshIsUngenerated(db: Db, g: Generation)
    requires Valid(db) && PendingOk(db, g)
    ensures RowsFor(db.surface, g.need) == []
  {
    assert NeedOk(db, g.need);
  }

  lemma NextIsNew(db: Db, g: Generation)
    requires PendingOk(db, g) && |g.rows| < |g.ordered|
    ensures g.ordered[|g.rows|].provider !in g.counts
  {
  }

  /** The next two statements go through and leave the transaction one candidate further. */
  lemma PlacingSucceeds(db: Db, g: Generation)
    requires Valid(db) && PendingOk(db, g) && |g.rows| < |g.ordered|
    ensures Placed(db, g).Some?
    ensures var next := Placed(db, g).value;
            && PendingOk(db, next) && |next.rows| == |g.rows| + 1 && next.need == g.need && next.ordered == g.ordered
            && next.counts.Keys == g.counts.Keys + {g.ordered[|g.rows|].provider}
  {
    FreshIsUngenerated(db, g);
    NextIsFree(db, g);
    NextIsNew(db, g);
    var next := Placed(db, g).value;
    forall p
      ensures p in next.counts <==> HasRow(next.rows, p)
    {
      assert next.rows[|g.rows|].provider == g.ordered[|g.rows|].provider;
      if HasRow(g.rows, p) {
        var i :| 0 <= i < |g.rows| && g.rows[i].provider == p;
        assert next.rows[i].provider == p;
      }
    }
  }

  // ---- What a commit does to the tables ----

  lemma {:induction false} AppendRows(surface: seq<SurfaceRow>, rows: seq<SurfaceRow>, need: Id, n: Id)
    requires forall i :: 0 <= i < |rows| ==> rows[i].need == need
    ensures RowsFor(surface + rows, n) == if n == need then RowsFor(surface, n) + rows else RowsFor(surface, n)
    decreases |rows|
  {
    if rows == [] {
      assert surface + rows == surface && RowsFor(surface, n) + rows == RowsFor(surface, n);
    } else {
      var init, last := rows[..|rows| - 1], rows[|rows| - 1];
      assert surface + rows == (surface + init) + [last] && rows == init + [last];
      AppendRow(surface + init, last, n, 0);
      AppendRows(surface, init, need, n);
    }
  }

  lemma {:induction false} RowsSurfaceOnce(surface: seq<SurfaceRow>, rows: seq<SurfaceRow>, p: Id)
    requires forall i, j :: 0 <= i < j < |rows| ==> rows[i].provider != rows[j].provider
    ensures Surfacings(surface + rows, p) == Surfacings(surface, p) + if HasRow(rows, p) then 1 else 0
    decreases |rows|
  {
    if rows == [] {
      assert surface + rows == surface;
    } else {
      var init, last := rows[..|rows| - 1], rows[|rows| - 1];
      assert surface + rows == (surface + init) + [last];
      AppendRow(surface + init, last, 0, p);
      RowsSurfaceOnce(surface, init, p);
      if HasRow(init, p) {
        var i :| 0 <= i < |init| && init[i].provider == p;
        assert rows[i].provider == p;
      }
      if HasRow(rows, p) && last.provider != p {
        var i :| 0 <= i < |rows| && rows[i].provider == p;
        assert init[i].provider == p;
      }
    }
  }

  lemma RowsAreDistinct(db: Db, g: Generation)
    requires PendingOk(db, g)
    ensures forall i, j :: 0 <= i < j < |g.rows| ==> g.rows[i].provider != g.rows[j].provider
    ensures WellPlaced(g.rows)
  {
  }

  lemma CommittedCounts(db: Db, g: Generation)
    requires CountersOk(db.surface, db.counters) && PendingOk(db, g)
    ensures CountersOk(Committed(db, g).surface, Committed(db, g).counters)
  {
    var after := Committed(db, g);
    RowsAreDistinct(db, g);
    forall p: Id
      ensures (if p in after.counters then after.counters[p] else 0) == Surfacings(after.surface, p)
    {
      assert (if p in db.counters then db.counters[p] else 0) == Surfacings(db.surface, p);
      RowsSurfaceOnce(db.surface, g.rows, p);
    }
  }

  lemma CommittedIsValid(db: Db, g: Generation)
    requires Valid(db) && PendingOk(db, g)
    ensures Valid(Committed(db, g)) && RowsFor(Committed(db, g).surface, g.need) == g.rows
    ensures forall n :: n != g.need ==> RowsFor(Committed(db, g).surface, n) == RowsFor(db.surface, n)
  {
    var after := Committed(db, g);
    CommittedCounts(db, g);
    FreshIsUngenerated(db, g);
    RowsAreDistinct(db, g);
    forall n: Id
      ensures RowsFor(after.surface, n) == if n == g.need then g.rows else RowsFor(db.surface, n)
    {
      AppendRows(db.surface, g.rows, g.need, n);
      assert [] + g.rows == g.rows;
    }
    forall n: Id
      ensures NeedOk(after, n)
    {
      assert NeedOk(db, n);
    }
  }

  /** What the transaction answers is what it persisted. */
  lemma AnswerIsPersisted(db: Db, g: Generation)
    requires Valid(db) && PendingOk(db, g) && |g.rows| == |g.ordered|
    ensures Respond(RowById(g.cards), g.ordered) == Ok(Persisted(Committed(db, g).surface, g.need))
  {
    CommittedIsValid(db, g);
    RowsAreDistinct(db, g);
    PersistedInOrder(Committed(db, g).surface, g.need);
    RespondMeans(g.cards, g.ordered);
    var shown := Respond(RowById(g.cards), g.ordered).value;
    assert shown == Persisted(Committed(db, g).surface, g.need);
  }

  // ---- Every event keeps it ----

  lemma OtherCommitKeeps(db: Db, g: Generation, other: Generation)
    requires PendingOk(db, g) && PendingOk(db, other) && g.need != other.need && g.counts.Keys !! other.counts.Keys
    ensures PendingOk(Committed(db, g), other)
  {
  }

  lemma FinishKeeps(s: System, tx: nat)
    requires Invariant(s) && tx in s.pending && |s.pending[tx].rows| == |s.pending[tx].ordered|
    ensures Invariant(Apply(s, Finish(tx)))
    ensures Apply(s, Finish(tx)) == System(Committed(s.db, s.pending[tx]), s.pending - {tx})
  {
    var g := s.pending[tx];
    AnswerIsPersisted(s.db, g);
    CommittedIsValid(s.db, g);
    forall y | y in s.pending && y != tx
      ensures PendingOk(Committed(s.db, g), s.pending[y])
    {
      OtherCommitKeeps(s.db, g, s.pending[y]);
    }
  }

  lemma AdvancingStaysApart(pending: map<nat, Generation>, tx: nat, next: Generation, p: Id)
    requires Apart(pending) && tx in pending
    requires next.need == pending[tx].need && next.counts.Keys == pending[tx].counts.Keys + {p}
    requires !CounterLocked(pending, tx, p)
    ensures Apart(pending[tx := next])
  {
  }

  lemma WithPending(db: Db, pending: map<nat, Generation>, tx: nat, g: Generation)
    requires AllPendingOk(db, pending) && PendingOk(db, g)
    ensures AllPendingOk(db, pending[tx := g])
  {
    var after := pending[tx := g];
    forall t | t in after
      ensures PendingOk(db, after[t])
    {
      if t != tx { assert PendingOk(db, pending[t]); }
    }
  }

  /** A placement either waits for a counter that another transaction holds, or goes through. */
  lemma PlaceKeeps(s: System, tx: nat)
    requires Invariant(s) && tx in s.pending && |s.pending[tx].rows| < |s.pending[tx].ordered|
    ensures Invariant(Apply(s, Place(tx)))
    ensures var g := s.pending[tx];
            if CounterLocked(s.pending, tx, g.ordered[|g.rows|].provider) then Apply(s, Place(tx)) == s
            else Placed(s.db, g).Some? && Apply(s, Place(tx)) == s.(pending := s.pending[tx := Placed(s.db, g).value])
  {
    var g := s.pending[tx];
    var p := g.ordered[|g.rows|].provider;
    assert PendingOk(s.db, g);
    PlacingSucceeds(s.db, g);
    if !CounterLocked(s.pending, tx, p) {
      WithPending(s.db, s.pending, tx, Placed(s.db, g).value);
      AdvancingStaysApart(s.pending, tx, Placed(s.db, g).value, p);
    }
  }

  lemma BeginIsOk(db: Db, rank: Id -> int, need: Id, filter: Filter, cards: seq<Card>)
    requires need in db.needs && !db.needs[need].generated && Eligible(db.counters, cards)
    ensures PendingOk(db, Generation(need, filter, cards, Ordered(db, rank, cards), [], map[]))
  {
    OrderedIsPlaceable(db, rank, cards);
    var ordered := Ordered(db, rank, cards);
    forall i | 0 <= i < |ordered|
      ensures Listed(cards, ordered[i].provider)
    {
      var j :| 0 <= j < |cards| && cards[j].provider == ordered[i].provider;
    }
  }

  lemma BeginningStaysApart(pending: map<nat, Generation>, tx: nat, g: Generation)
    requires Apart(pending) && !NeedLocked(pending, g.need) && g.counts == map[]
    ensures Apart(pending[tx := g])
  {
  }

  lemma BeginKeeps(s: System, tx: nat, rank: Id -> int, need: Id, filter: Filter, cards: seq<Card>)
    requires Invariant(s) && need in s.db.needs && !s.db.needs[need].generated && Eligible(s.db.counters, cards)
    ensures Invariant(Apply(s, Begin(tx, rank, need, filter, cards)))
  {
    var g := Generation(need, filter, cards, Ordered(s.db, rank, cards), [], map[]);
    BeginIsOk(s.db, rank, need, filter, cards);
    WithPending(s.db, s.pending, tx, g);
    if !NeedLocked(s.pending, need) { BeginningStaysApart(s.pending, tx, g); }
  }

  lemma AbortKeeps(s: System, tx: nat)
    requires Invariant(s)
    ensures Invariant(Apply(s, Abort(tx)))
  {
  }

  lemma AddingLeavesPending(db: Db, step: Directory.Step, g: Generation)
    requires (step.NewNeed? || step.Register?) && PendingOk(db, g)
    ensures PendingOk(Directory.Apply(db, step), g)
  {
  }

  lemma AddingKeeps(s: System, step: Directory.Step)
    requires Invariant(s) && (step.NewNeed? || step.Register?)
    ensures Invariant(s.(db := Directory.Apply(s.db, step)))
  {
    Directory.StepKeeps(s.db, step);
    forall tx | tx in s.pending
      ensures PendingOk(Directory.Apply(s.db, step), s.pending[tx])
    {
      AddingLeavesPending(s.db, step, s.pending[tx]);
    }
  }

  lemma EventKeeps(s: System, e: Event)
    requires Invariant(s)
    ensures Invariant(Apply(s, e))
  {
    match e {
      case Begin(tx, rank, need, filter, cards) =>
        if need in s.db.needs && !s.db.needs[need].generated && Eligible(s.db.counters, cards) {
          BeginKeeps(s, tx, rank, need, filter, cards);
        }
      case Place(tx) => if tx in s.pending && |s.pending[tx].rows| < |s.pending[tx].ordered| { PlaceKeeps(s, tx); }
      case Finish(tx) => if tx in s.pending && |s.pending[tx].rows| == |s.pending[tx].ordered| { FinishKeeps(s, tx); }
      case Abort(tx) => AbortKeeps(s, tx);
      case AddNeed(id) => AddingKeeps(s, NewNeed(id));
      case AddProvider(p) => AddingKeeps(s, Register(p));
    }
  }

  lemma {:induction false} RunKeeps(s: System, events: seq<Event>)
    requires Invariant(s)
    ensures Invariant(Run(s, events))
    decreases |events|
  {
    if events != [] {
      EventKeeps(s, events[0]);
      RunKeeps(Apply(s, events[0]), events[1..]);
    }
  }

  lemma StartIsValid()
    ensures Invariant(START)
  {
    EmptyIsValid();
  }

  // ---- Results ----

  /** However generations interleave, no increment is lost: a counter is the number of committed surface rows, and each
      need's positions are 1, 2, … n. */
  lemma EveryInterleavingCounts(events: seq<Event>, p: Id, need: Id)
    ensures var db := Run(START, events).db;
            && (p in db.counters ==> db.counters[p] == Surfacings(db.surface, p))
            && (forall i :: 0 <= i < |RowsFor(db.surface, need)| ==> RowsFor(db.surface, need)[i].position == i + 1)
  {
    StartIsValid();
    RunKeeps(START, events);
    var db := Run(START, events).db;
    assert NeedOk(db, need);
    assert (if p in db.counters then db.counters[p] else 0) == Surfacings(db.surface, p);
  }

  /** In every reachable state a generation's next statements can only wait, never fail, and its commit persists what it
      answers. */
  lemma EveryGenerationSucceeds(events: seq<Event>, tx: nat)
    requires tx in Run(START, events).pending
    ensures var s := Run(START, events);
            var g := s.pending[tx];
            if |g.rows| < |g.ordered| then
              CounterLocked(s.pending, tx, g.ordered[|g.rows|].provider) || Placed(s.db, g).Some?
            else
              && Apply(s, Finish(tx)) == System(Committed(s.db, g), s.pending - {tx})
              && Respond(RowById(g.cards), g.ordered) == Ok(Persisted(Committed(s.db, g).surface, g.need))
  {
    StartIsValid();
    RunKeeps(START, events);
    var s := Run(START, events);
    assert PendingOk(s.db, s.pending[tx]);
    if |s.pending[tx].rows| < |s.pending[tx].ordered| {
      PlacingSucceeds(s.db, s.pending[tx]);
    } else {
      FinishKeeps(s, tx);
      AnswerIsPersisted(s.db, s.pending[tx]);
    }
  }

  lemma EventLeavesGenerated(s: System, e: Event, need: Id)
    requires Invariant(s) && need in s.db.needs && s.db.needs[need].generated
    ensures var after := Apply(s, e).db;
            need in after.needs && after.needs[need] == s.db.needs[need] &&
            RowsFor(after.surface, need) == RowsFor(s.db.surface, need)
  {
    if e.Finish? && e.tx in s.pending && |s.pending[e.tx].rows| == |s.pending[e.tx].ordered| {
      CommittedIsValid(s.db, s.pending[e.tx]);
      FinishKeeps(s, e.tx);
    }
  }

  /** A directory is generated once: from its commit on, nothing that runs beside or after changes what is shown. */
  lemma {:induction false} GeneratedOnce(s: System, events: seq<Event>, need: Id)
    requires Invariant(s) && need in s.db.needs && s.db.needs[need].generated
    ensures Persisted(Run(s, events).db.surface, need) == Persisted(s.db.surface, need)
    decreases |events|
  {
    if events != [] {
      EventKeeps(s, events[0]);
      EventLeavesGenerated(s, events[0], need);
      GeneratedOnce(Apply(s, events[0]), events[1..], need);
    }
  }
}
