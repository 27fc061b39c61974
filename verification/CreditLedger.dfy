/** The ledger writer `append_credit_event`, run by any number of interleaved transactions. */
module CreditLedger {
  import opened Sequences
  import opened DecimalText
  import opened HashChain

  datatype Row = Row(id: nat, provider: string, eventType: string, units: Decimal, weightVersion: string,
                     credits: Decimal, matter: Option<string>, evidenceRef: string, occurredAt: int,
                     previousHash: Option<seq<byte>>, hash: seq<byte>)

  /** A row of credit_balance. */
  datatype Balance = Balance(total: real, period: real, lastEventId: Option<nat>)

  /** The arguments of a call; of the audit columns only whether audit_event's constraints accept them. */
  datatype Request = Request(provider: string, eventType: string, units: Decimal, weightVersion: string,
                             credits: Decimal, matter: Option<string>, evidenceRef: string, occurredAt: int,
                             auditAccepted: bool)

  /** A transaction inside the writer: it holds the row lock of the provider's head and remembers what it read
      there; later it also owns a sequence value. */
  datatype Writer =
    | Holding(provider: string, lastEventId: Option<nat>, previousHash: seq<byte>)
    | Numbered(provider: string, lastEventId: Option<nat>, previousHash: seq<byte>, id: nat)

  /** matters are the keys of the table that credit_event.matter_id refers to. */
  datatype Ledger = Ledger(events: seq<Row>, balances: map<string, Balance>, nextId: nat, writers: map<nat, Writer>,
                           matters: set<string>)

  const EMPTY := Ledger([], map[], 1, map[], {})

  /** What a database is set up with: how events are hashed, and the CHECK list of credit_event.event_type. */
  datatype Schema = Schema(hasher: Hasher, eventTypes: set<string>)

  const EVENT_TYPES := {
    "PRO_BONO_MATTER_CLOSED", "LEGAL_AID_TIER_MATTER_CLOSED", "ASPIRATIONAL_BLOCK_SERVICE", "ROTATION_DUTY_COMPLETED",
    "FIRST_RESPONSE_SLA_MET", "CLE_MODULE_COMPLETED", "LOK_ADALAT_SETTLEMENT"
  }

  function LedgerSchema(os: Platform): Schema {
    Schema(LedgerHasher(os, Side.Writer), EVENT_TYPES)
  }

  function RecordOf(row: Row): Record {
    Record(row.id, row.provider, row.eventType, NumericText(row.credits), row.occurredAt)
  }

  function EntryOf(row: Row): Entry {
    Entry(RecordOf(row), row.previousHash, row.hash)
  }

  /** `SELECT hash INTO STRICT … WHERE id = … AND provider_id = …`; none when there is no such row. */
  function HashOf(events: seq<Row>, id: nat, provider: string): Option<seq<byte>> {
    if events == [] then None
    else if events[0].id == id && events[0].provider == provider then Some(events[0].hash)
    else HashOf(events[1..], id, provider)
  }

  function PreviousHashOf(db: Ledger, provider: string): Option<seq<byte>>
    requires provider in db.balances
  {
    match db.balances[provider].lastEventId
    case None => Some(GENESIS_HASH)
    case Some(id) => HashOf(db.events, id, provider)
  }

  /** The row the writer is about to insert; none when a field is too long to be hashed. */
  function NewRow(x: Schema, w: Writer, r: Request): Option<Row>
    requires w.Numbered?
  {
    var previousHash := if w.lastEventId.None? then None else Some(w.previousHash);
    var row := Row(w.id, w.provider, r.eventType, r.units, r.weightVersion, r.credits, r.matter, r.evidenceRef,
                   r.occurredAt, previousHash, []);
    match ComputeLedgerHash(x.hasher, RecordOf(row), w.previousHash)
    case None => None
    case Some(hash) => Some(row.(hash := hash))
  }

  predicate MatterKnown(db: Ledger, matter: Option<string>) {
    matter.None? || matter.value in db.matters
  }

  /** CHECK, PRIMARY KEY and the matter's foreign key of credit_event. */
  predicate Insertable(x: Schema, db: Ledger, row: Row) {
    row.eventType in x.eventTypes && FreshId(db.events, row.id) && MatterKnown(db, row.matter)
  }

  /** What a caller can check beforehand: an allowed type, a known matter if any, and acceptable audit columns. */
  predicate Acceptable(x: Schema, db: Ledger, r: Request) {
    r.eventType in x.eventTypes && MatterKnown(db, r.matter) && r.auditAccepted
  }

  function Credited(b: Balance, row: Row): Balance {
    Balance(b.total + Value(row.credits), b.period + Value(row.credits), Some(row.id))
  }

  // ---- Steps ----

  datatype Step =
    | OpenHead(provider: string)
    | NewMatter(matter: string)
    | LockHead(tx: nat, lockedProvider: string)
    | TakeNumber(tx: nat)
    | Append(tx: nat, request: Request)
    | Abort(tx: nat)
    | WriteEvent(id: nat, change: Option<Row>)

  predicate Locked(db: Ledger, provider: string) {
    exists tx :: tx in db.writers && db.writers[tx].provider == provider
  }

  function AfterAppend(db: Ledger, tx: nat, row: Row): Ledger
    requires tx in db.writers && row.provider in db.balances
  {
    Ledger(db.events + [row], db.balances[row.provider := Credited(db.balances[row.provider], row)], db.nextId,
           db.writers - {tx}, db.matters)
  }

  function Aborted(db: Ledger, tx: nat): Ledger {
    db.(writers := db.writers - {tx})
  }

  function ApplyOpen(db: Ledger, p: string): Ledger {
    if p in db.balances then db else db.(balances := db.balances[p := Balance(0.0, 0.0, None)])
  }

  function ApplyLock(db: Ledger, tx: nat, p: string): Ledger {
    if tx in db.writers || p !in db.balances || Locked(db, p) || PreviousHashOf(db, p).None? then db
    else
      var head := Holding(p, db.balances[p].lastEventId, PreviousHashOf(db, p).value);
      db.(writers := db.writers[tx := head])
  }

  function ApplyNumber(db: Ledger, tx: nat): Ledger {
    if tx !in db.writers || !db.writers[tx].Holding? then db
    else
      var w := db.writers[tx];
      db.(nextId := db.nextId + 1,
          writers := db.writers[tx := Numbered(w.provider, w.lastEventId, w.previousHash, db.nextId)])
  }

  function ApplyAppend(x: Schema, db: Ledger, tx: nat, r: Request): Ledger {
    if tx !in db.writers || !db.writers[tx].Numbered? || db.writers[tx].provider !in db.balances then db
    else
      var row := NewRow(x, db.writers[tx], r);
      if row.Some? && Insertable(x, db, row.value) && r.auditAccepted then AfterAppend(db, tx, row.value)
      else Aborted(db, tx)
  }

  /** What an UPDATE (to the given row) or DELETE of the event with that id leaves behind, triggers aside. */
  function Rewritten(events: seq<Row>, id: nat, change: Option<Row>): seq<Row> {
    if events == [] then []
    else
      var rest := Rewritten(events[1..], id, change);
      if events[0].id != id then [events[0]] + rest
      else if change.Some? then [change.value] + rest
      else rest
  }

  /** credit_event_append_only raises for every row that the statement hits. */
  function ApplyWrite(db: Ledger, id: nat, change: Option<Row>): Ledger {
    if FreshId(db.events, id) then db.(events := Rewritten(db.events, id, change)) else db
  }

  /** One step of one transaction. A step that has to wait for a lock changes nothing; one that raises rolls its
      transaction back, and a sequence value taken by then is lost. */
  function Apply(x: Schema, db: Ledger, step: Step): Ledger {
    match step
    case OpenHead(p) => ApplyOpen(db, p)
    case NewMatter(m) => db.(matters := db.matters + {m})
    case LockHead(tx, p) => ApplyLock(db, tx, p)
    case TakeNumber(tx) => ApplyNumber(db, tx)
    case Append(tx, r) => ApplyAppend(x, db, tx, r)
    case Abort(tx) => Aborted(db, tx)
    case WriteEvent(id, change) => ApplyWrite(db, id, change)
  }

  function Run(x: Schema, db: Ledger, steps: seq<Step>): Ledger
    decreases |steps|
  {
    if steps == [] then db else Run(x, Apply(x, db, steps[0]), steps[1..])
  }

  // ---- One provider's events ----

  /** The provider's rows, in the order in which they were committed. */
  function RowsOf(events: seq<Row>, p: string): seq<Row> {
    if events == [] then []
    else
      var init := RowsOf(events[..|events| - 1], p);
      if events[|events| - 1].provider == p then init + [events[|events| - 1]] else init
  }

  lemma {:induction false} RowsOfMembers(events: seq<Row>, p: string)
    ensures forall r :: r in RowsOf(events, p) <==> r in events && r.provider == p
  {
    if events != [] {
      RowsOfMembers(events[..|events| - 1], p);
      assert events == events[..|events| - 1] + [events[|events| - 1]];
    }
  }

  lemma RowsOfAppend(events: seq<Row>, row: Row, p: string)
    ensures RowsOf(events + [row], p) == if row.provider == p then RowsOf(events, p) + [row] else RowsOf(events, p)
  {
    assert (events + [row])[..|events|] == events;
  }

  function Entries(rows: seq<Row>): (entries: seq<Entry>)
    ensures |entries| == |rows| && forall i :: 0 <= i < |rows| ==> entries[i] == EntryOf(rows[i])
  {
    MapSeq(rows, EntryOf)
  }

  function Sum(rows: seq<Row>): real {
    if rows == [] then 0.0 else Sum(rows[..|rows| - 1]) + Value(rows[|rows| - 1].credits)
  }

  predicate Increasing(rows: seq<Row>) {
    forall i, j :: 0 <= i < j < |rows| ==> rows[i].id < rows[j].id
  }

  function LastId(rows: seq<Row>): Option<nat> {
    if rows == [] then None else Some(rows[|rows| - 1].id)
  }

  /** What the balance row and the chain promise about a provider's events. */
  predicate Reconciled(x: Schema, rows: seq<Row>, b: Balance) {
    && Increasing(rows)
    && Verifies(x.hasher, Entries(rows))
    && b.total == b.period == Sum(rows)
    && b.lastEventId == LastId(rows)
  }

  // ---- The invariant ----

  predicate AllReconciled(x: Schema, events: seq<Row>, balances: map<string, Balance>) {
    forall p {:trigger Reconciled(x, RowsOf(events, p), balances[p])} ::
      p in balances ==> Reconciled(x, RowsOf(events, p), balances[p])
  }

  predicate DistinctIds(events: seq<Row>) {
    forall i, j :: 0 <= i < j < |events| ==> events[i].id != events[j].id
  }

  predicate NumbersAreSpent(events: seq<Row>, nextId: nat) {
    forall i :: 0 <= i < |events| ==> events[i].id < nextId
  }

  predicate ProvidersAreKnown(events: seq<Row>, balances: map<string, Balance>) {
    forall i :: 0 <= i < |events| ==> events[i].provider in balances
  }

  predicate FreshId(events: seq<Row>, id: nat) {
    forall i :: 0 <= i < |events| ==> events[i].id != id
  }

  predicate Above(rows: seq<Row>, id: nat) {
    forall i :: 0 <= i < |rows| ==> rows[i].id < id
  }

  /** What a writer read under its lock is still so, and its number is still its own. */
  predicate WriterHolds(events: seq<Row>, balances: map<string, Balance>, nextId: nat, w: Writer) {
    && w.provider in balances
    && w.lastEventId == balances[w.provider].lastEventId
    && w.previousHash == HeadHash(Entries(RowsOf(events, w.provider)))
    && (w.Numbered? ==> w.id < nextId && FreshId(events, w.id) && Above(RowsOf(events, w.provider), w.id))
  }

  predicate WritersHold(events: seq<Row>, balances: map<string, Balance>, nextId: nat, writers: map<nat, Writer>) {
    forall tx :: tx in writers ==> WriterHolds(events, balances, nextId, writers[tx])
  }

  /** No two transactions hold one head or own one number. */
  predicate WritersApart(writers: map<nat, Writer>) {
    forall s, t :: s in writers && t in writers && s != t ==>
      && writers[s].provider != writers[t].provider
      && (writers[s].Numbered? && writers[t].Numbered? ==> writers[s].id != writers[t].id)
  }

  predicate Invariant(x: Schema, db: Ledger) {
    && AllReconciled(x, db.events, db.balances)
    && DistinctIds(db.events) && NumbersAreSpent(db.events, db.nextId) && ProvidersAreKnown(db.events, db.balances)
    && WritersHold(db.events, db.balances, db.nextId, db.writers) && WritersApart(db.writers)
  }

  lemma {:induction false} HashOfFinds(events: seq<Row>, i: nat)
    requires i < |events| && DistinctIds(events)
    ensures HashOf(events, events[i].id, events[i].provider) == Some(events[i].hash)
  {
    if i > 0 { HashOfFinds(events[1..], i - 1); }
  }

  /** The STRICT select never fails: the head always names an existing event, and it is the chain's last. */
  lemma HeadIsFound(x: Schema, db: Ledger, p: string)
    requires Invariant(x, db) && p in db.balances
    ensures PreviousHashOf(db, p) == Some(HeadHash(Entries(RowsOf(db.events, p))))
  {
    var rows := RowsOf(db.events, p);
    assert Reconciled(x, rows, db.balances[p]);
    if rows != [] {
      var last := rows[|rows| - 1];
      RowsOfMembers(db.events, p);
      assert last in rows;
      var i :| 0 <= i < |db.events| && db.events[i] == last;
      HashOfFinds(db.events, i);
    }
  }

  lemma HeadExists(x: Schema, db: Ledger, p: string)
    requires Invariant(x, db) && p in db.balances
    ensures PreviousHashOf(db, p).Some?
  {
    HeadIsFound(x, db, p);
  }

  lemma ReconciledAppend(x: Schema, rows: seq<Row>, b: Balance, row: Row)
    requires Reconciled(x, rows, b) && Above(rows, row.id)
    requires Links(x.hasher, EntryOf(row), HeadHash(Entries(rows)), rows == [])
    ensures Reconciled(x, rows + [row], Credited(b, row))
  {
    var longer := rows + [row];
    assert Verifies(x.hasher, Entries(longer)) by {
      VerifiesAppend(x.hasher, Entries(rows), EntryOf(row));
      assert Entries(longer) == Entries(rows) + [EntryOf(row)];
    }
    SumAppend(rows, row);
    IncreasingAppend(rows, row);
  }

  lemma SumAppend(rows: seq<Row>, row: Row)
    ensures Sum(rows + [row]) == Sum(rows) + Value(row.credits)
  {
    assert (rows + [row])[..|rows|] == rows;
  }

  lemma IncreasingAppend(rows: seq<Row>, row: Row)
    requires Increasing(rows) && Above(rows, row.id)
    ensures Increasing(rows + [row])
  {
  }

  // ---- Every step keeps it ----

  lemma UnknownHasNoRows(events: seq<Row>, balances: map<string, Balance>, p: string)
    requires ProvidersAreKnown(events, balances) && p !in balances
    ensures RowsOf(events, p) == []
  {
    RowsOfMembers(events, p);
    forall r | r in RowsOf(events, p)
      ensures false
    {
    }
  }

  lemma EmptyIsReconciled(x: Schema)
    ensures Reconciled(x, [], Balance(0.0, 0.0, None))
  {
  }

  lemma OpenReconciles(x: Schema, events: seq<Row>, balances: map<string, Balance>, p: string)
    requires AllReconciled(x, events, balances) && ProvidersAreKnown(events, balances) && p !in balances
    ensures AllReconciled(x, events, balances[p := Balance(0.0, 0.0, None)])
  {
    UnknownHasNoRows(events, balances, p);
    EmptyIsReconciled(x);
  }

  lemma OpenKeeps(x: Schema, db: Ledger, p: string)
    requires Invariant(x, db)
    ensures Invariant(x, ApplyOpen(db, p))
  {
    if p !in db.balances { OpenReconciles(x, db.events, db.balances, p); }
  }

  /** Replacing or adding one writer. */
  lemma WithWriter(events: seq<Row>, balances: map<string, Balance>, nextId: nat, writers: map<nat, Writer>, tx: nat,
                   w: Writer)
    requires WritersHold(events, balances, nextId, writers) && WritersApart(writers)
    requires WriterHolds(events, balances, nextId, w)
    requires forall t :: t in writers && t != tx ==>
               writers[t].provider != w.provider && (writers[t].Numbered? && w.Numbered? ==> writers[t].id != w.id)
    ensures WritersHold(events, balances, nextId, writers[tx := w]) && WritersApart(writers[tx := w])
  {
  }

  lemma LockKeeps(x: Schema, db: Ledger, tx: nat, p: string)
    requires Invariant(x, db)
    ensures Invariant(x, ApplyLock(db, tx, p))
  {
    if !(tx in db.writers || p !in db.balances || Locked(db, p) || PreviousHashOf(db, p).None?) {
      HeadIsFound(x, db, p);
      var w := Holding(p, db.balances[p].lastEventId, PreviousHashOf(db, p).value);
      WithWriter(db.events, db.balances, db.nextId, db.writers, tx, w);
    }
  }

  lemma EverythingIsBelow(events: seq<Row>, nextId: nat, p: string)
    requires NumbersAreSpent(events, nextId)
    ensures FreshId(events, nextId) && Above(RowsOf(events, p), nextId)
  {
    var rows := RowsOf(events, p);
    RowsOfMembers(events, p);
    forall i | 0 <= i < |rows|
      ensures rows[i].id < nextId
    {
      assert rows[i] in events;
    }
  }

  lemma LaterNumbers(events: seq<Row>, balances: map<string, Balance>, nextId: nat, writers: map<nat, Writer>)
    requires WritersHold(events, balances, nextId, writers)
    ensures WritersHold(events, balances, nextId + 1, writers)
    ensures forall t :: t in writers && writers[t].Numbered? ==> writers[t].id < nextId
  {
  }

  lemma TakeNumberKeeps(x: Schema, db: Ledger, tx: nat)
    requires Invariant(x, db)
    ensures Invariant(x, ApplyNumber(db, tx))
  {
    if tx in db.writers && db.writers[tx].Holding? {
      var was := db.writers[tx];
      EverythingIsBelow(db.events, db.nextId, was.provider);
      LaterNumbers(db.events, db.balances, db.nextId, db.writers);
      var w := Numbered(was.provider, was.lastEventId, was.previousHash, db.nextId);
      WithWriter(db.events, db.balances, db.nextId + 1, db.writers, tx, w);
    }
  }

  lemma AbortKeeps(x: Schema, db: Ledger, tx: nat)
    requires Invariant(x, db)
    ensures Invariant(x, Aborted(db, tx))
  {
  }

  lemma NewRowLinks(x: Schema, db: Ledger, w: Writer, r: Request)
    requires AllReconciled(x, db.events, db.balances) && WriterHolds(db.events, db.balances, db.nextId, w)
    requires w.Numbered? && NewRow(x, w, r).Some?
    ensures var row, rows := NewRow(x, w, r).value, RowsOf(db.events, w.provider);
            && row.provider == w.provider && row.id == w.id && row.eventType == r.eventType && row.matter == r.matter
            && Links(x.hasher, EntryOf(row), HeadHash(Entries(rows)), rows == [])
  {
    assert Reconciled(x, RowsOf(db.events, w.provider), db.balances[w.provider]);
  }

  lemma AppendReconciles(x: Schema, events: seq<Row>, balances: map<string, Balance>, row: Row)
    requires AllReconciled(x, events, balances) && row.provider in balances
    requires Above(RowsOf(events, row.provider), row.id)
    requires var rows := RowsOf(events, row.provider);
             Links(x.hasher, EntryOf(row), HeadHash(Entries(rows)), rows == [])
    ensures AllReconciled(x, events + [row], balances[row.provider := Credited(balances[row.provider], row)])
  {
    var after := balances[row.provider := Credited(balances[row.provider], row)];
    forall p | p in after
      ensures Reconciled(x, RowsOf(events + [row], p), after[p])
    {
      RowsOfAppend(events, row, p);
      if p == row.provider { ReconciledAppend(x, RowsOf(events, p), balances[p], row); }
    }
  }

  lemma AppendLeavesOther(events: seq<Row>, balances: map<string, Balance>, nextId: nat, w: Writer, row: Row)
    requires WriterHolds(events, balances, nextId, w) && row.provider != w.provider && row.provider in balances
    requires w.Numbered? ==> w.id != row.id
    ensures WriterHolds(events + [row], balances[row.provider := Credited(balances[row.provider], row)], nextId, w)
  {
    RowsOfAppend(events, row, w.provider);
  }

  lemma AppendKeepsWriters(db: Ledger, tx: nat, row: Row)
    requires WritersHold(db.events, db.balances, db.nextId, db.writers) && WritersApart(db.writers)
    requires tx in db.writers && db.writers[tx].Numbered?
    requires row.provider == db.writers[tx].provider && row.id == db.writers[tx].id && row.provider in db.balances
    ensures var after := AfterAppend(db, tx, row);
            WritersHold(after.events, after.balances, after.nextId, after.writers) && WritersApart(after.writers)
  {
    var after := AfterAppend(db, tx, row);
    forall t | t in after.writers
      ensures WriterHolds(after.events, after.balances, after.nextId, after.writers[t])
    {
      AppendLeavesOther(db.events, db.balances, db.nextId, db.writers[t], row);
    }
  }

  lemma AppendKeeps(x: Schema, db: Ledger, tx: nat, r: Request)
    requires Invariant(x, db)
    ensures Invariant(x, ApplyAppend(x, db, tx, r))
  {
    AbortKeeps(x, db, tx);
    if tx in db.writers && db.writers[tx].Numbered? && NewRow(x, db.writers[tx], r).Some? {
      var row := NewRow(x, db.writers[tx], r).value;
      NewRowLinks(x, db, db.writers[tx], r);
      AppendReconciles(x, db.events, db.balances, row);
      AppendKeepsWriters(db, tx, row);
      AppendKeepsIds(db, row);
    }
  }

  lemma AppendKeepsIds(db: Ledger, row: Row)
    requires DistinctIds(db.events) && NumbersAreSpent(db.events, db.nextId)
    requires ProvidersAreKnown(db.events, db.balances)
    requires FreshId(db.events, row.id) && row.id < db.nextId && row.provider in db.balances
    ensures var events := db.events + [row];
            var balances := db.balances[row.provider := Credited(db.balances[row.provider], row)];
            DistinctIds(events) && NumbersAreSpent(events, db.nextId) && ProvidersAreKnown(events, balances)
  {
  }

  lemma {:induction false} NothingToRewrite(events: seq<Row>, id: nat, change: Option<Row>)
    requires FreshId(events, id)
    ensures Rewritten(events, id, change) == events
  {
    if events != [] {
      assert events[0].id != id;
      assert FreshId(events[1..], id) by {
        assert forall i :: 0 <= i < |events[1..]| ==> events[1..][i] == events[i + 1];
      }
      NothingToRewrite(events[1..], id, change);
    }
  }

  /** Either the trigger raises or no row is hit. */
  lemma WritingChangesNothing(db: Ledger, id: nat, change: Option<Row>)
    ensures ApplyWrite(db, id, change) == db
  {
    if FreshId(db.events, id) { NothingToRewrite(db.events, id, change); }
  }

  lemma StepKeeps(x: Schema, db: Ledger, step: Step)
    requires Invariant(x, db)
    ensures Invariant(x, Apply(x, db, step))
  {
    match step
    case OpenHead(p) => OpenKeeps(x, db, p);
    case NewMatter(_) =>
    case LockHead(tx, p) => LockKeeps(x, db, tx, p);
    case TakeNumber(tx) => TakeNumberKeeps(x, db, tx);
    case Append(tx, r) => AppendKeeps(x, db, tx, r);
    case Abort(tx) => AbortKeeps(x, db, tx);
    case WriteEvent(id, change) => WritingChangesNothing(db, id, change);
  }

  lemma EmptyKeeps(x: Schema)
    ensures Invariant(x, EMPTY)
  {
  }

  lemma {:induction false} RunKeeps(x: Schema, db: Ledger, steps: seq<Step>)
    requires Invariant(x, db)
    ensures Invariant(x, Run(x, db, steps))
    decreases |steps|
  {
    if steps != [] {
      StepKeeps(x, db, steps[0]);
      RunKeeps(x, Apply(x, db, steps[0]), steps[1..]);
    }
  }

  // ---- Results ----

  function ById(): (Row, Row) -> int {
    (a: Row, b: Row) => a.id - b.id
  }

  /** `SELECT … WHERE provider_id = p ORDER BY id` */
  function EventsById(db: Ledger, p: string): seq<Row> {
    SortBy(ById(), RowsOf(db.events, p))
  }

  /** The sum of the numbers that the hashed credit texts spell. */
  function SumSpelled(entries: seq<Entry>): real {
    if entries == [] then 0.0
    else SumSpelled(entries[..|entries| - 1]) + Spelled(entries[|entries| - 1].record.credits)
  }

  lemma {:induction false} SumIsSpelled(rows: seq<Row>)
    ensures Sum(rows) == SumSpelled(Entries(rows))
  {
    if rows != [] {
      var last := |rows| - 1;
      assert Entries(rows)[..last] == Entries(rows[..last]);
      ValueIsSpelled(rows[last].credits);
      SumIsSpelled(rows[..last]);
    }
  }

  /** However transactions interleave, and whichever of them abort: each provider's events in id order are in
      the order of their commits, they form a chain under the writer's hash, the balances equal the sum of the credits
      that the chain spells, and the head is the greatest id. */
  lemma EveryRunReconciles(x: Schema, steps: seq<Step>, p: string)
    requires p in Run(x, EMPTY, steps).balances
    ensures var db := Run(x, EMPTY, steps);
            var rows, b := EventsById(db, p), db.balances[p];
            && rows == RowsOf(db.events, p)
            && Verifies(x.hasher, Entries(rows))
            && b.total == b.period == SumSpelled(Entries(rows))
            && (rows == [] <==> b.lastEventId == None)
            && (rows != [] ==> b.lastEventId == Some(rows[|rows| - 1].id))
            && (rows != [] ==> forall r :: r in rows ==> r.id <= rows[|rows| - 1].id)
  {
    RunKeeps(x, EMPTY, steps);
    var db := Run(x, EMPTY, steps);
    var rows := RowsOf(db.events, p);
    assert Reconciled(x, rows, db.balances[p]);
    SumIsSpelled(rows);
    SortPermutes(ById(), rows);
    SortSorts(ById(), rows);
    assert Sorted(ById(), rows) && multiset(rows) == multiset(EventsById(db, p));
    IncreasingIsAntisymmetric(rows);
    SortedIsUnique(ById(), rows, EventsById(db, p));
  }

  predicate InRange(os: Platform, rows: seq<Row>) {
    forall i :: 0 <= i < |rows| ==> YearInRange(os, rows[i].occurredAt)
  }

  /** The application's verifier on what any run of the database's writer leaves: it accepts every provider whose events
      all lie in the years 1 to 9999, and no other, unless some event hashes to one digest with two different time
      texts. */
  lemma VerifierAcceptsRunsIff(os: Platform, steps: seq<Step>, p: string)
    requires Faithful(os) && p in Run(LedgerSchema(os), EMPTY, steps).balances
    ensures var rows := EventsById(Run(LedgerSchema(os), EMPTY, steps), p);
            && (InRange(os, rows) ==> Verifies(LedgerHasher(os, Verifier), Entries(rows)))
            && (Verifies(LedgerHasher(os, Verifier), Entries(rows)) ==>
                  InRange(os, rows) || TwoTextsOneDigest(os, Entries(rows)))
  {
    var rows := EventsById(Run(LedgerSchema(os), EMPTY, steps), p);
    EveryRunReconciles(LedgerSchema(os), steps, p);
    WriterChainIsAcceptedIff(os, Entries(rows));
    assert forall i :: 0 <= i < |rows| ==> Entries(rows)[i].record.occurredAt == rows[i].occurredAt;
  }

  predicate SameCoveredColumns(a: Row, b: Row) {
    && a.id == b.id && a.provider == b.provider && a.eventType == b.eventType && a.credits == b.credits
    && a.occurredAt == b.occurredAt && a.hash == b.hash
  }

  predicate SameCoveredRows(a: seq<Row>, b: seq<Row>) {
    |a| == |b| && forall i :: 0 <= i < |a| ==> SameCoveredColumns(a[i], b[i])
  }

  /** Tamper evidence for rows: two accepted histories with one head hash agree on every covered column, credits to
      the last digit of their scale, or the payloads they contain break SHA-256. */
  lemma RowTamperEvidence(os: Platform, a: seq<Row>, b: seq<Row>)
    requires Faithful(os) && HeadHash(Entries(a)) == HeadHash(Entries(b))
    requires Verifies(LedgerHasher(os, Verifier), Entries(a)) && Verifies(LedgerHasher(os, Verifier), Entries(b))
    ensures var h := LedgerHasher(os, Verifier);
            || SameCoveredRows(a, b)
            || Collision(h, Entries(a), Entries(b))
            || (|a| != |b| && (ZeroDigest(h, Entries(a)) || ZeroDigest(h, Entries(b))))
  {
    TamperEvidence(os, Entries(a), Entries(b));
    if SameRecords(Entries(a), Entries(b)) {
      forall i | 0 <= i < |a|
        ensures SameCoveredColumns(a[i], b[i])
      {
        assert Entries(a)[i].record == Entries(b)[i].record && Entries(a)[i].hash == Entries(b)[i].hash;
        NumericTextIsInjective(a[i].credits, b[i].credits);
      }
    }
  }

  /** So two ledgers, whatever their runs, that show the same head for a provider hold the same events of it. */
  lemma LedgersWithOneHeadAgree(os: Platform, steps: seq<Step>, others: seq<Step>, p: string)
    requires Faithful(os) && p in Run(LedgerSchema(os), EMPTY, steps).balances
    requires p in Run(LedgerSchema(os), EMPTY, others).balances
    requires var a := EventsById(Run(LedgerSchema(os), EMPTY, steps), p);
             var b := EventsById(Run(LedgerSchema(os), EMPTY, others), p);
             InRange(os, a) && InRange(os, b) && HeadHash(Entries(a)) == HeadHash(Entries(b))
    ensures var h := LedgerHasher(os, Verifier);
            var a := EventsById(Run(LedgerSchema(os), EMPTY, steps), p);
            var b := EventsById(Run(LedgerSchema(os), EMPTY, others), p);
            || SameCoveredRows(a, b)
            || Collision(h, Entries(a), Entries(b))
            || (|a| != |b| && (ZeroDigest(h, Entries(a)) || ZeroDigest(h, Entries(b))))
  {
    VerifierAcceptsRunsIff(os, steps, p);
    VerifierAcceptsRunsIff(os, others, p);
    RowTamperEvidence(os, EventsById(Run(LedgerSchema(os), EMPTY, steps), p),
                      EventsById(Run(LedgerSchema(os), EMPTY, others), p));
  }

  lemma SameIdSameRow(rows: seq<Row>, i: nat, j: nat)
    requires Increasing(rows) && i < |rows| && j < |rows| && rows[i].id == rows[j].id
    ensures i == j
  {
  }

  lemma IncreasingIsAntisymmetric(rows: seq<Row>)
    requires Increasing(rows)
    ensures Antisymmetric(ById(), rows)
  {
    forall x, y | x in rows && y in rows && ById()(x, y) <= 0 && ById()(y, x) <= 0
      ensures x == y
    {
      var i :| 0 <= i < |rows| && rows[i] == x;
      var j :| 0 <= j < |rows| && rows[j] == y;
      SameIdSameRow(rows, i, j);
    }
  }

  function LastHash(rows: seq<Row>): Option<seq<byte>> {
    if rows == [] then None else Some(rows[|rows| - 1].hash)
  }

  lemma NewRowNamesTheLast(x: Schema, db: Ledger, w: Writer, r: Request)
    requires w.provider in db.balances && Reconciled(x, RowsOf(db.events, w.provider), db.balances[w.provider])
    requires WriterHolds(db.events, db.balances, db.nextId, w)
    requires w.Numbered? && NewRow(x, w, r).Some?
    ensures NewRow(x, w, r).value.previousHash == LastHash(RowsOf(db.events, w.provider))
  {
    var rows := RowsOf(db.events, w.provider);
    assert rows != [] ==> HeadHash(Entries(rows)) == rows[|rows| - 1].hash;
  }

  lemma AppendIsApplied(x: Schema, db: Ledger, tx: nat, r: Request)
    requires Invariant(x, db) && tx in db.writers && db.writers[tx].Numbered?
    requires Acceptable(x, db, r) && NewRow(x, db.writers[tx], r).Some?
    ensures var row := NewRow(x, db.writers[tx], r).value;
            && row.provider in db.balances && ApplyAppend(x, db, tx, r) == AfterAppend(db, tx, row)
            && row.previousHash == LastHash(RowsOf(db.events, row.provider))
  {
    var w := db.writers[tx];
    assert WriterHolds(db.events, db.balances, db.nextId, w);
    NewRowLinks(x, db, w, r);
    assert Reconciled(x, RowsOf(db.events, w.provider), db.balances[w.provider]);
    NewRowNamesTheLast(x, db, w, r);
    var row := NewRow(x, w, r).value;
    assert FreshId(db.events, row.id);
    assert Insertable(x, db, row);
    assert ApplyAppend(x, db, tx, r) == AfterAppend(db, tx, row);
  }

  lemma WriterIsKnown(x: Schema, db: Ledger, tx: nat)
    requires Invariant(x, db) && tx in db.writers
    ensures db.writers[tx].provider in db.balances
  {
    assert WriterHolds(db.events, db.balances, db.nextId, db.writers[tx]);
  }

  lemma AppendIsRefused(x: Schema, db: Ledger, tx: nat, r: Request)
    requires tx in db.writers && db.writers[tx].Numbered? && db.writers[tx].provider in db.balances
    requires !Acceptable(x, db, r) || NewRow(x, db.writers[tx], r).None?
    ensures ApplyAppend(x, db, tx, r) == Aborted(db, tx)
  {
    var row := NewRow(x, db.writers[tx], r);
    assert row.Some? ==> row.value.eventType == r.eventType && row.value.matter == r.matter;
  }

  predicate AppendDecided(x: Schema, db: Ledger, tx: nat, r: Request, after: Ledger)
    requires tx in db.writers && db.writers[tx].Numbered?
  {
    if NewRow(x, db.writers[tx], r).Some? && Acceptable(x, db, r) then
      var row := NewRow(x, db.writers[tx], r).value;
      after.events == db.events + [row] && row.previousHash == LastHash(RowsOf(db.events, row.provider))
    else
      after == Aborted(db, tx)
  }

  lemma AppliedIsDecided(x: Schema, db: Ledger, tx: nat, r: Request)
    requires tx in db.writers && db.writers[tx].Numbered? && NewRow(x, db.writers[tx], r).Some? && Acceptable(x, db, r)
    requires var row := NewRow(x, db.writers[tx], r).value;
             && row.provider in db.balances && ApplyAppend(x, db, tx, r) == AfterAppend(db, tx, row)
             && row.previousHash == LastHash(RowsOf(db.events, row.provider))
    ensures AppendDecided(x, db, tx, r, Apply(x, db, Append(tx, r)))
  {
  }

  lemma RefusedIsDecided(x: Schema, db: Ledger, tx: nat, r: Request)
    requires tx in db.writers && db.writers[tx].Numbered? && db.writers[tx].provider in db.balances
    requires !Acceptable(x, db, r) || NewRow(x, db.writers[tx], r).None?
    ensures AppendDecided(x, db, tx, r, Apply(x, db, Append(tx, r)))
  {
    AppendIsRefused(x, db, tx, r);
  }

  lemma AppendIsDecided(x: Schema, db: Ledger, tx: nat, r: Request)
    requires Invariant(x, db) && tx in db.writers && db.writers[tx].Numbered?
    ensures AppendDecided(x, db, tx, r, Apply(x, db, Append(tx, r)))
  {
    if NewRow(x, db.writers[tx], r).Some? && Acceptable(x, db, r) {
      AppendIsApplied(x, db, tx, r);
      AppliedIsDecided(x, db, tx, r);
    } else {
      WriterIsKnown(x, db, tx);
      RefusedIsDecided(x, db, tx, r);
    }
  }

  /** In every reachable state a numbered event goes through if and only if its type is allowed, its matter is known
      if it names one, its fields can be hashed and its audit columns are acceptable; it then names the hash of the
      provider's last event. Otherwise nothing is written and its sequence value is lost. */
  lemma AppendSucceedsIff(x: Schema, steps: seq<Step>, tx: nat, r: Request)
    requires var db := Run(x, EMPTY, steps); tx in db.writers && db.writers[tx].Numbered?
    ensures var db := Run(x, EMPTY, steps); AppendDecided(x, db, tx, r, Apply(x, db, Append(tx, r)))
  {
    EmptyKeeps(x);
    RunKeeps(x, EMPTY, steps);
    AppendIsDecided(x, Run(x, EMPTY, steps), tx, r);
  }

  lemma {:induction false} RunOneMore(x: Schema, db: Ledger, steps: seq<Step>, step: Step)
    ensures Run(x, db, steps + [step]) == Apply(x, Run(x, db, steps), step)
    decreases |steps|
  {
    if steps == [] {
      assert Run(x, Apply(x, db, step), []) == Apply(x, db, step);
      assert [step][1..] == [];
    } else {
      assert (steps + [step])[1..] == steps[1..] + [step];
      RunOneMore(x, Apply(x, db, steps[0]), steps[1..], step);
    }
  }

  /** Committed history is only ever extended, attempts to update or delete an event included. */
  lemma {:induction false} HistoryIsAppendOnly(x: Schema, db: Ledger, steps: seq<Step>)
    ensures db.events <= Run(x, db, steps).events
    decreases |steps|
  {
    if steps != [] {
      if steps[0].WriteEvent? { WritingChangesNothing(db, steps[0].id, steps[0].change); }
      assert db.events <= Apply(x, db, steps[0]).events;
      HistoryIsAppendOnly(x, Apply(x, db, steps[0]), steps[1..]);
    }
  }

  // ---- The procedure, run alone ----

  datatype LedgerError = HeadMissing | NoDataFound | FieldTooLong | CheckViolation | ForeignKeyViolation | AuditRefused

  /** The three steps of one call. */
  function Call(r: Request): seq<Step> {
    [LockHead(0, r.provider), TakeNumber(0), Append(0, r)]
  }

  /** One row more, with the columns of the request and linked to the provider's previous one, and only the
      provider's balance moved, by what its credits spell. */
  predicate Appended(before: Ledger, after: Ledger, r: Request, id: nat, hash: seq<byte>) {
    && |after.events| == |before.events| + 1 && after.events[..|before.events|] == before.events
    && RecordsRequest(after.events[|before.events|], r)
    && after.events[|before.events|].id == id == before.nextId && after.nextId == id + 1
    && after.events[|before.events|].hash == hash
    && after.events[|before.events|].previousHash == LastHash(RowsOf(before.events, r.provider))
    && r.provider in before.balances
    && after.balances == before.balances[r.provider := CreditedBy(before.balances[r.provider], r.credits, id)]
    && after.matters == before.matters
  }

  predicate RecordsRequest(row: Row, r: Request) {
    && row.provider == r.provider && row.eventType == r.eventType && row.units == r.units
    && row.weightVersion == r.weightVersion && row.credits == r.credits && row.matter == r.matter
    && row.evidenceRef == r.evidenceRef && row.occurredAt == r.occurredAt
  }

  function CreditedBy(b: Balance, credits: Decimal, id: nat): Balance {
    b.(total := b.total + Spelled(NumericText(credits)), period := b.period + Spelled(NumericText(credits)),
       lastEventId := Some(id))
  }

  lemma CreditedAsSpelled(b: Balance, row: Row)
    ensures Credited(b, row) == CreditedBy(b, row.credits, row.id)
  {
    ValueIsSpelled(row.credits);
  }

  /** Why the first failing statement raises. */
  predicate Explains(x: Schema, db: Ledger, r: Request, error: LedgerError) {
    match error
    case HeadMissing => r.provider !in db.balances
    case NoDataFound => false
    case FieldTooLong => HashingFails(x, db, r)
    case CheckViolation => !HashingFails(x, db, r) && r.eventType !in x.eventTypes
    case ForeignKeyViolation => !HashingFails(x, db, r) && r.eventType in x.eventTypes && !MatterKnown(db, r.matter)
    case AuditRefused =>
      !HashingFails(x, db, r) && r.eventType in x.eventTypes && MatterKnown(db, r.matter) && !r.auditAccepted
  }

  predicate HashingFails(x: Schema, db: Ledger, r: Request) {
    r.provider in db.balances && PreviousHashOf(db, r.provider).Some? && NewRow(x, CallerAs(db, r), r).None?
  }

  /** Nothing is written. The sequence value of a call that got that far is lost. */
  predicate Refused(x: Schema, before: Ledger, after: Ledger, r: Request, error: LedgerError) {
    Explains(x, before, r, error) && after == if error == HeadMissing then before
                                              else before.(nextId := before.nextId + 1)
  }

  predicate GoesThrough(x: Schema, db: Ledger, r: Request) {
    r.provider in db.balances && PreviousHashOf(db, r.provider).Some? && NewRow(x, CallerAs(db, r), r).Some? &&
    Acceptable(x, db, r)
  }

  lemma CallUnfolds(x: Schema, db: Ledger, r: Request)
    ensures Run(x, db, Call(r)) ==
            ApplyAppend(x, ApplyNumber(ApplyLock(db, 0, r.provider), 0), 0, r)
  {
    var lock, number, append := LockHead(0, r.provider), TakeNumber(0), Append(0, r);
    assert [] + [lock] == [lock] && [lock] + [number] == [lock, number] && [lock, number] + [append] == Call(r);
    RunOneMore(x, db, [], lock);
    RunOneMore(x, db, [lock], number);
    RunOneMore(x, db, [lock, number], append);
  }

  function CallerAs(db: Ledger, r: Request): Writer
    requires r.provider in db.balances && PreviousHashOf(db, r.provider).Some?
  {
    Numbered(r.provider, db.balances[r.provider].lastEventId, PreviousHashOf(db, r.provider).value, db.nextId)
  }

  lemma UnknownProviderIsRefused(x: Schema, db: Ledger, r: Request)
    requires db.writers == map[] && r.provider !in db.balances
    ensures Run(x, db, Call(r)) == db
  {
    CallUnfolds(x, db, r);
  }

  lemma AloneIsNumbered(db: Ledger, r: Request)
    requires db.writers == map[] && r.provider in db.balances && PreviousHashOf(db, r.provider).Some?
    ensures ApplyNumber(ApplyLock(db, 0, r.provider), 0) ==
              db.(nextId := db.nextId + 1, writers := map[0 := CallerAs(db, r)])
  {
    var held := Holding(r.provider, db.balances[r.provider].lastEventId, PreviousHashOf(db, r.provider).value);
    assert ApplyLock(db, 0, r.provider) == db.(writers := map[0 := held]);
  }

  function NumberedFor(db: Ledger, r: Request): Ledger
    requires r.provider in db.balances && PreviousHashOf(db, r.provider).Some?
  {
    db.(nextId := db.nextId + 1, writers := map[0 := CallerAs(db, r)])
  }

  lemma CallReachesAppend(x: Schema, db: Ledger, r: Request)
    requires db.writers == map[] && r.provider in db.balances && PreviousHashOf(db, r.provider).Some?
    ensures Run(x, db, Call(r)) == ApplyAppend(x, NumberedFor(db, r), 0, r)
  {
    CallUnfolds(x, db, r);
    AloneIsNumbered(db, r);
  }

  lemma NumberedForKeeps(x: Schema, db: Ledger, r: Request)
    requires Invariant(x, db) && db.writers == map[] && r.provider in db.balances
    requires PreviousHashOf(db, r.provider).Some?
    ensures Invariant(x, NumberedFor(db, r))
  {
    LockKeeps(x, db, 0, r.provider);
    TakeNumberKeeps(x, ApplyLock(db, 0, r.provider), 0);
    AloneIsNumbered(db, r);
  }

  lemma CallSucceeds(x: Schema, db: Ledger, r: Request)
    requires Invariant(x, db) && db.writers == map[] && r.provider in db.balances
    requires PreviousHashOf(db, r.provider).Some?
    requires Acceptable(x, db, r) && NewRow(x, CallerAs(db, r), r).Some?
    ensures var row := NewRow(x, CallerAs(db, r), r).value;
            && Run(x, db, Call(r)) ==
                 Ledger(db.events + [row], db.balances[r.provider := Credited(db.balances[r.provider], row)],
                                             db.nextId + 1, map[], db.matters)
            && Appended(db, Run(x, db, Call(r)), r, row.id, row.hash)
  {
    CallReachesAppend(x, db, r);
    NumberedForKeeps(x, db, r);
    AppendIsApplied(x, NumberedFor(db, r), 0, r);
    assert NumberedFor(db, r).writers - {0} == map[];
    CreditedAsSpelled(db.balances[r.provider], NewRow(x, CallerAs(db, r), r).value);
  }

  lemma CallFails(x: Schema, db: Ledger, r: Request)
    requires db.writers == map[] && r.provider in db.balances && PreviousHashOf(db, r.provider).Some?
    requires !Acceptable(x, db, r) || NewRow(x, CallerAs(db, r), r).None?
    ensures Run(x, db, Call(r)) == db.(nextId := db.nextId + 1)
  {
    CallReachesAppend(x, db, r);
    AppendIsRefused(x, NumberedFor(db, r), 0, r);
    assert NumberedFor(db, r).writers - {0} == map[];
  }

  function AfterCall(x: Schema, db: Ledger, r: Request): Ledger {
    if r.provider !in db.balances || PreviousHashOf(db, r.provider).None? then db
    else if !GoesThrough(x, db, r) then db.(nextId := db.nextId + 1)
    else
      var row := NewRow(x, CallerAs(db, r), r).value;
      Ledger(db.events + [row], db.balances[r.provider := Credited(db.balances[r.provider], row)], db.nextId + 1,
             map[], db.matters)
  }

  /** A call run alone is its three steps, and keeps the invariant. */
  lemma CallIsItsSteps(x: Schema, db: Ledger, r: Request)
    requires Invariant(x, db) && db.writers == map[]
    ensures Run(x, db, Call(r)) == AfterCall(x, db, r) && Invariant(x, AfterCall(x, db, r))
  {
    RunKeeps(x, db, Call(r));
    if r.provider !in db.balances {
      UnknownProviderIsRefused(x, db, r);
    } else {
      HeadExists(x, db, r.provider);
      if !GoesThrough(x, db, r) {
        CallFails(x, db, r);
      } else {
        CallSucceeds(x, db, r);
      }
    }
  }

  lemma CallKeeps(x: Schema, db: Ledger, r: Request)
    requires Invariant(x, db) && db.writers == map[]
    ensures Invariant(x, AfterCall(x, db, r))
    ensures r.provider in db.balances ==> PreviousHashOf(db, r.provider).Some?
  {
    CallIsItsSteps(x, db, r);
    if r.provider in db.balances { HeadExists(x, db, r.provider); }
  }

  lemma CallAppends(x: Schema, db: Ledger, r: Request)
    requires GoesThrough(x, db, r) && Invariant(x, db) && db.writers == map[]
    ensures var row := NewRow(x, CallerAs(db, r), r).value; Appended(db, AfterCall(x, db, r), r, row.id, row.hash)
  {
    CallSucceeds(x, db, r);
  }

  class Database {
    var events: seq<Row>
    var balances: map<string, Balance>
    var nextId: nat
    var matters: set<string>

    function State(): Ledger
      reads this
    {
      Ledger(events, balances, nextId, map[], matters)
    }

    constructor ()
      ensures State() == EMPTY
    {
      events, balances, nextId, matters := [], map[], 1, {};
    }

    method SelectPreviousHash(provider: string, lastEventId: Option<nat>) returns (hash: Option<seq<byte>>)
      requires provider in balances && lastEventId == balances[provider].lastEventId
      ensures hash == PreviousHashOf(State(), provider)
    {
      match lastEventId
      case None => hash := Some(GENESIS_HASH);
      case Some(id) => hash := HashOf(events, id, provider);
    }

    /** append_credit_event. The STRICT select cannot fail; each other error has its cause in the arguments. */
    method AppendCreditEvent(x: Schema, r: Request) returns (result: Result<(nat, seq<byte>), LedgerError>)
      requires Invariant(x, State())
      modifies this`events, this`balances, this`nextId
      ensures Invariant(x, State()) && State() == AfterCall(x, old(State()), r)
      ensures result.Ok? <==> GoesThrough(x, old(State()), r)
      ensures result.Err? ==> Refused(x, old(State()), State(), r, result.error)
      ensures result.Ok? ==> Appended(old(State()), State(), r, result.value.0, result.value.1)
    {
      ghost var before := State();
      CallKeeps(x, before, r);
      if r.provider !in balances { return Err(HeadMissing); }
      var lastEventId := balances[r.provider].lastEventId;
      var previousHash := SelectPreviousHash(r.provider, lastEventId);
      if previousHash.None? { return Err(NoDataFound); }
      var eventId := nextId;
      nextId := nextId + 1;
      var row := NewRow(x, Numbered(r.provider, lastEventId, previousHash.value, eventId), r);
      if row.None? { return Err(FieldTooLong); }
      if r.eventType !in x.eventTypes { return Err(CheckViolation); }
      if r.matter.Some? && r.matter.value !in matters { return Err(ForeignKeyViolation); }
      if !r.auditAccepted { return Err(AuditRefused); }
      CallAppends(x, before, r);
      events := events + [row.value];
      balances := balances[r.provider := Credited(balances[r.provider], row.value)];
      return Ok((eventId, row.value.hash));
    }
  }
}
