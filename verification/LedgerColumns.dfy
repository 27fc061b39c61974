/** The ledger in columns and bytes: what is hashed for a row, how a year is spelled, and what the single steps do,
    each without the vocabulary that the writer and the verifier share. */
module LedgerColumns {
  import opened Sequences
  import opened DecimalText
  import opened HashChain
  import opened CreditLedger
  import opened Text

  // ---- The bytes ----

  /** Four length bytes, the most significant first, and the bytes themselves. */
  function Prefixed(b: seq<byte>): seq<byte>
    requires |b| < 4294967296
  {
    [(|b| / 16777216) as byte, (|b| / 65536 % 256) as byte, (|b| / 256 % 256) as byte, (|b| % 256) as byte] + b
  }

  predicate Short(b: seq<byte>) {
    |b| < 4294967296
  }

  predicate AllShort(os: Platform, previous: seq<byte>, id: nat, provider: string, eventType: string, credits: string,
                     time: string) {
    && Short(os.utf8("v1")) && Short(previous) && Short(os.utf8(IntText(id))) && Short(os.utf8(provider))
    && Short(os.utf8(eventType)) && Short(os.utf8(credits)) && Short(os.utf8(time))
  }

  /** Version, previous hash, id, provider, type, credits and time, each with its length in front. */
  function HashedBytes(os: Platform, previous: seq<byte>, id: nat, provider: string, eventType: string, credits: string,
                       time: string): seq<byte>
    requires AllShort(os, previous, id, provider, eventType, credits, time)
  {
    Prefixed(os.utf8("v1")) + Prefixed(previous) + Prefixed(os.utf8(IntText(id))) + Prefixed(os.utf8(provider)) +
    Prefixed(os.utf8(eventType)) + Prefixed(os.utf8(credits)) + Prefixed(os.utf8(time))
  }

  lemma PayloadInBytes(os: Platform, side: Side, e: Record, previous: seq<byte>, time: string)
    requires e.id >= 0 && time == TimeText(os, side, e.occurredAt)
    ensures Payload(os, side, e, previous) ==
            if AllShort(os, previous, e.id, e.provider, e.eventType, e.credits, time) then
              Some(HashedBytes(os, previous, e.id, e.provider, e.eventType, e.credits, time))
            else None
  {
    var f := HashedFields(os, side, e, previous);
    assert f[0] == os.utf8("v1") && f[1] == previous && f[2] == os.utf8(IntText(e.id)) && f[3] == os.utf8(e.provider);
    assert f[4] == os.utf8(e.eventType) && f[5] == os.utf8(e.credits) && f[6] == os.utf8(time);
    if AllFit(f) { EncodeSeven(f); }
  }

  /** The writer inserts a row if every text fits its length prefix, and the row's hash is the digest of the row's own
      columns, after the hash that was read under the lock. */
  lemma WrittenHash(os: Platform, w: CreditLedger.Writer, r: Request)
    requires w.Numbered?
    ensures var time := WriterYear(os.year(r.occurredAt)) + os.rest(r.occurredAt);
            var inserted := NewRow(LedgerSchema(os), w, r);
            && (inserted.Some? <==>
                  AllShort(os, w.previousHash, w.id, w.provider, r.eventType, NumericText(r.credits), time))
            && (inserted.Some? ==>
                  && RecordsRequest(inserted.value, r.(provider := w.provider)) && inserted.value.id == w.id
                  && inserted.value.hash == os.sha256(HashedBytes(os, w.previousHash, w.id, w.provider, r.eventType,
                                                                  NumericText(r.credits), time)))
  {
    var e := Record(w.id, w.provider, r.eventType, NumericText(r.credits), r.occurredAt);
    PayloadInBytes(os, HashChain.Writer, e, w.previousHash, TimeText(os, HashChain.Writer, r.occurredAt));
  }

  /** And the verifier recomputes it from the columns of the stored row. */
  lemma VerifiedHash(os: Platform, row: Row, previous: seq<byte>)
    ensures var time := VerifierYear(os.year(row.occurredAt)) + os.rest(row.occurredAt);
            var h := ComputeLedgerHash(LedgerHasher(os, Verifier), EntryOf(row).record, previous);
            && EntryOf(row).hash == row.hash && EntryOf(row).previousHash == row.previousHash
            && h == if AllShort(os, previous, row.id, row.provider, row.eventType, NumericText(row.credits), time) then
                      Some(os.sha256(HashedBytes(os, previous, row.id, row.provider, row.eventType,
                                                 NumericText(row.credits), time)))
                    else None
  {
    PayloadInBytes(os, Verifier, RecordOf(row), previous, TimeText(os, Verifier, row.occurredAt));
  }

  /** A chain starts from 32 zero bytes. */
  lemma GenesisIsZero()
    ensures |GENESIS_HASH| == 32 && forall i :: 0 <= i < 32 ==> GENESIS_HASH[i] == 0
    ensures HeadHash([]) == GENESIS_HASH
  {
  }

  // ---- The years ----

  lemma {:induction false} PaddedLength(n: nat, w: nat)
    requires w > 0
    ensures var s := Padded(n, w);
            |s| >= w && (n < TenToThe(w) ==> |s| == w) && (|s| > w ==> s[0] != '0' && n >= TenToThe(w))
    decreases n + w
  {
    if n >= 10 || w > 1 {
      if w > 1 {
        PaddedLength(n / 10, w - 1);
        assert Padded(n, w)[0] == Padded(n / 10, w - 1)[0];
      } else {
        UnpaddedStart(n);
        PaddedValue(n / 10, 0);
      }
    }
  }

  /** Without a width there is no padding. */
  lemma {:induction false} UnpaddedStart(n: nat)
    ensures Padded(n, 1) == Padded(n, 0) != "" && (n > 0 ==> Padded(n, 1)[0] != '0')
  {
    if n >= 10 {
      UnpaddedStart(n / 10);
      assert Padded(n, 1)[0] == Padded(n / 10, 0)[0];
    }
  }

  /** At least w digits that spell n, more than w only where n needs them. */
  predicate SpelledIn(s: string, n: nat, w: nat) {
    AllDigits(s) && NatValue(s) == n && |s| >= w && (|s| > w ==> s[0] != '0')
  }

  /** The writer spells a year of our era with at least four digits, and of an earlier one the number BC; the
      verifier needs a sign and at least six digits outside 0 to 9999. */
  lemma YearsInDigits(y: int)
    ensures y >= 1 ==> SpelledIn(WriterYear(y), y, 4)
    ensures y < 1 ==> SpelledIn(WriterYear(y), 1 - y, 4)
    ensures 0 <= y <= 9999 ==> SpelledIn(VerifierYear(y), y, 4) && |VerifierYear(y)| == 4
    ensures y > 9999 ==> VerifierYear(y) != "" && VerifierYear(y)[0] == '+' && SpelledIn(VerifierYear(y)[1..], y, 6)
    ensures y < 0 ==> VerifierYear(y) != "" && VerifierYear(y)[0] == '-' && SpelledIn(VerifierYear(y)[1..], -y, 6)
  {
    var m := if y < 0 then -y else y;
    PaddedIsSpelled(if y < 1 then 1 - y else y, 4);
    PaddedIsSpelled(m, 4);
    PaddedIsSpelled(m, 6);
    if 0 <= y <= 9999 {
      PaddedLength(y, 4);
      assert TenToThe(4) == 10 * TenToThe(3) && TenToThe(2) == 10 * TenToThe(1);
    }
    assert ("+" + Padded(m, 6))[1..] == Padded(m, 6) && ("-" + Padded(m, 6))[1..] == Padded(m, 6);
  }

  lemma PaddedIsSpelled(n: nat, w: nat)
    requires w > 0
    ensures SpelledIn(Padded(n, w), n, w)
  {
    PaddedValue(n, w);
    PaddedLength(n, w);
  }

  // ---- The event types ----

  /** The application's union type. */
  datatype CreditEventType =
    | ProBonoMatterClosed
    | LegalAidTierMatterClosed
    | AspirationalBlockService
    | RotationDutyCompleted
    | FirstResponseSlaMet
    | CleModuleCompleted
    | LokAdalatSettlement

  function EventTypeText(t: CreditEventType): string {
    match t
    case ProBonoMatterClosed => "PRO_BONO_MATTER_CLOSED"
    case LegalAidTierMatterClosed => "LEGAL_AID_TIER_MATTER_CLOSED"
    case AspirationalBlockService => "ASPIRATIONAL_BLOCK_SERVICE"
    case RotationDutyCompleted => "ROTATION_DUTY_COMPLETED"
    case FirstResponseSlaMet => "FIRST_RESPONSE_SLA_MET"
    case CleModuleCompleted => "CLE_MODULE_COMPLETED"
    case LokAdalatSettlement => "LOK_ADALAT_SETTLEMENT"
  }

  /** The CHECK list admits every type of the application, and nothing else. */
  lemma EventTypesAgree(text: string)
    ensures text in EVENT_TYPES <==> exists t :: EventTypeText(t) == text
  {
    if text in EVENT_TYPES {
      var t := if text == "PRO_BONO_MATTER_CLOSED" then ProBonoMatterClosed
               else if text == "LEGAL_AID_TIER_MATTER_CLOSED" then LegalAidTierMatterClosed
               else if text == "ASPIRATIONAL_BLOCK_SERVICE" then AspirationalBlockService
               else if text == "ROTATION_DUTY_COMPLETED" then RotationDutyCompleted
               else if text == "FIRST_RESPONSE_SLA_MET" then FirstResponseSlaMet
               else if text == "CLE_MODULE_COMPLETED" then CleModuleCompleted
               else LokAdalatSettlement;
      assert EventTypeText(t) == text;
    }
  }

  // ---- The steps ----

  /** A provider's balance row starts empty and is opened once; a new matter can be referred to. */
  lemma OpeningTakesEffect(x: Schema, db: Ledger, p: string, matter: string)
    ensures var after := Apply(x, db, OpenHead(p));
            && after.events == db.events && after.nextId == db.nextId && after.writers == db.writers
            && after.matters == db.matters && after.balances.Keys == db.balances.Keys + {p}
            && (p !in db.balances ==> after.balances[p] == Balance(0.0, 0.0, None))
            && (forall q :: q in db.balances ==> after.balances[q] == db.balances[q])
    ensures Apply(x, db, NewMatter(matter)) == db.(matters := db.matters + {matter})
  {
  }

  /** A transaction gets the lock of a known provider's head exactly if it holds none and nobody holds this one, and
      then remembers the head it found; heads of other providers are not in its way. */
  lemma LockingIff(x: Schema, db: Ledger, tx: nat, p: string)
    requires Invariant(x, db)
    ensures var after := Apply(x, db, LockHead(tx, p));
            if tx !in db.writers && p in db.balances &&
               (forall t :: t in db.writers ==> db.writers[t].provider != p) then
              var rows := RowsOf(db.events, p);
              after == db.(writers := db.writers[tx := Holding(p, db.balances[p].lastEventId,
                                                               if rows == [] then GENESIS_HASH
                                                               else rows[|rows| - 1].hash)])
            else after == db
  {
    if p in db.balances { HeadInColumns(x, db, p); }
  }

  lemma HeadInColumns(x: Schema, db: Ledger, p: string)
    requires Invariant(x, db) && p in db.balances
    ensures var rows := RowsOf(db.events, p);
            PreviousHashOf(db, p) == Some(if rows == [] then GENESIS_HASH else rows[|rows| - 1].hash)
  {
    HeadIsFound(x, db, p);
    var rows := RowsOf(db.events, p);
    assert rows != [] ==> HeadHash(Entries(rows)) == rows[|rows| - 1].hash;
  }

  /** The head's hash is looked up by id and provider together. */
  lemma {:induction false} HashOfMeans(events: seq<Row>, id: nat, p: string)
    ensures HashOf(events, id, p) == None <==>
            forall i :: 0 <= i < |events| ==> events[i].id != id || events[i].provider != p
    ensures HashOf(events, id, p).Some? ==>
              exists i :: 0 <= i < |events| && events[i].id == id && events[i].provider == p &&
                          events[i].hash == HashOf(events, id, p).value
  {
    if events != [] && !(events[0].id == id && events[0].provider == p) {
      var rest := events[1..];
      HashOfMeans(rest, id, p);
      assert forall i :: 0 <= i < |rest| ==> rest[i] == events[i + 1];
      if HashOf(rest, id, p).Some? {
        var i :| 0 <= i < |rest| && rest[i].id == id && rest[i].provider == p &&
                 rest[i].hash == HashOf(rest, id, p).value;
        assert events[i + 1].hash == HashOf(events, id, p).value;
      }
    }
  }

  /** A numbered writer's row is refused for its type, for an id in use, for an unknown matter, and for its audit
      columns; a refusal rolls the writer back. */
  lemma RefusedRow(x: Schema, db: Ledger, tx: nat, r: Request)
    requires tx in db.writers && db.writers[tx].Numbered? && db.writers[tx].provider in db.balances
    requires || r.eventType !in x.eventTypes || !r.auditAccepted
             || (exists i :: 0 <= i < |db.events| && db.events[i].id == db.writers[tx].id)
             || (r.matter.Some? && r.matter.value !in db.matters)
    ensures Apply(x, db, Append(tx, r)) == db.(writers := db.writers - {tx})
  {
  }

  /** The append-only trigger is what keeps history: without it an UPDATE would put its row in place of the event,
      and a DELETE would leave no row of that id. */
  lemma {:induction false} RewritingWouldShow(events: seq<Row>, id: nat, change: Row, i: nat)
    requires i < |events|
    ensures var updated := Rewritten(events, id, Some(change));
            |updated| == |events| && updated[i] == if events[i].id == id then change else events[i]
    ensures FreshId(Rewritten(events, id, None), id)
    ensures events[i].id != id ==> events[i] in Rewritten(events, id, None)
  {
    if |events| > 1 {
      RewritingWouldShow(events[1..], id, change, if i > 0 then i - 1 else 0);
    } else {
      assert events[1..] == [] && Rewritten([], id, None) == [] && Rewritten([], id, Some(change)) == [];
    }
  }
}
