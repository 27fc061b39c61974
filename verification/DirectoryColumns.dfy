/** The directory in columns: what a first read shows, writes and counts, in the order of the counters themselves, and
    exactly when a statement or a read is refused. */
module DirectoryColumns {
  import opened Directory
  import opened Sequences

  /** One eligible row a provider, and every provider has a counter. */
  predicate OneRowEach(counters: map<Id, nat>, cards: seq<Card>) {
    && (forall i, j :: 0 <= i < j < |cards| ==> cards[i].provider != cards[j].provider)
    && (forall i :: 0 <= i < |cards| ==> cards[i].provider in counters)
  }

  /** Whoever the counters say was surfaced less often comes first; among equals the seeded key decides. */
  predicate InCounterOrder(counters: map<Id, nat>, rank: Id -> int, shown: seq<Card>) {
    && (forall i :: 0 <= i < |shown| ==> shown[i].provider in counters)
    && (forall i, j :: 0 <= i < j < |shown| ==> counters[shown[i].provider] <= counters[shown[j].provider])
    && (forall i, j :: 0 <= i < j < |shown| && counters[shown[i].provider] == counters[shown[j].provider] ==>
          rank(shown[i].provider) <= rank(shown[j].provider))
  }

  /** Every card exactly once. */
  predicate SameCards(cards: seq<Card>, shown: seq<Card>) {
    && |shown| == |cards|
    && (forall i :: 0 <= i < |shown| ==> shown[i] in cards)
    && (forall i :: 0 <= i < |cards| ==> cards[i] in shown)
    && (forall i, j :: 0 <= i < j < |shown| ==> shown[i].provider != shown[j].provider)
  }

  /** The rows behind what was there: one a shown card, numbered from 1, with the counter as it was read. */
  predicate RowsAdded(before: Db, after: Db, need: Id, filter: Filter, shown: seq<Card>) {
    && |after.surface| == |before.surface| + |shown| && after.surface[..|before.surface|] == before.surface
    && forall i :: 0 <= i < |shown| ==>
         && shown[i].provider in before.counters
         && after.surface[|before.surface| + i] ==
            SurfaceRow(need, shown[i].provider, i + 1, before.counters[shown[i].provider], shown[i], filter)
  }

  /** Each shown provider's counter goes up by one, and no other. */
  predicate Counted(before: map<Id, nat>, after: map<Id, nat>, shown: seq<Card>) {
    && after.Keys == before.Keys
    && (forall i :: 0 <= i < |shown| ==>
          shown[i].provider in before && after[shown[i].provider] == before[shown[i].provider] + 1)
    && (forall p :: p in before && (forall i :: 0 <= i < |shown| ==> shown[i].provider != p) ==>
          after[p] == before[p])
  }

  lemma {:induction false} PlacedRows(surface: seq<SurfaceRow>, counters: map<Id, nat>, need: Id, filter: Filter,
                                      cards: seq<Card>, ordered: seq<Candidate>, k: nat)
    requires k <= |ordered| && Placeable(counters, cards, ordered)
    requires PlaceAll(surface, counters, need, filter, cards, ordered, k).Ok?
    ensures var (rows, counts) := PlaceAll(surface, counters, need, filter, cards, ordered, k).value;
            && |rows| == |surface| + |ordered| - k && rows[..|surface|] == surface
            && (forall i :: k <= i < |ordered| ==>
                  rows[|surface| + i - k] == SurfaceRow(need, ordered[i].provider, i + 1, ordered[i].surfacedCount,
                                                        FindCard(cards, ordered[i].provider).value, filter))
            && counts.Keys == counters.Keys
            && (forall i :: k <= i < |ordered| ==> counts[ordered[i].provider] == counters[ordered[i].provider] + 1)
            && (forall p :: p in counters && (forall i :: k <= i < |ordered| ==> ordered[i].provider != p) ==>
                  counts[p] == counters[p])
    decreases |ordered| - k
  {
    if k < |ordered| {
      var p := ordered[k].provider;
      var row := SurfaceRow(need, p, k + 1, ordered[k].surfacedCount, FindCard(cards, p).value, filter);
      var next := counters[p := counters[p] + 1];
      PlacedRows(surface + [row], next, need, filter, cards, ordered, k + 1);
      var (rows, counts) := PlaceAll(surface + [row], next, need, filter, cards, ordered, k + 1).value;
      assert rows[..|surface|] == rows[..|surface| + 1][..|surface|] == surface;
      assert rows[|surface|] == rows[..|surface| + 1][|surface|] == row;
    }
  }

  /** The order of the response is the order of the candidates. */
  lemma ShownAsOrdered(db: Db, rank: Id -> int, cards: seq<Card>, ordered: seq<Candidate>, shown: seq<Card>)
    requires OneRowEach(db.counters, cards) && ordered == Ordered(db, rank, cards) && |shown| == |ordered| == |cards|
    requires Placeable(db.counters, cards, ordered)
    requires forall i :: 0 <= i < |ordered| ==> FindCard(cards, ordered[i].provider) == Some(shown[i])
    ensures forall i :: 0 <= i < |ordered| ==>
              && shown[i].provider == ordered[i].provider && shown[i].provider in db.counters
              && ordered[i].surfacedCount == db.counters[shown[i].provider]
    ensures InCounterOrder(db.counters, rank, shown)
  {
    var candidates := Candidates(db.counters, cards);
    OrderMeans(rank, candidates);
    forall i | 0 <= i < |ordered|
      ensures ordered[i].provider in db.counters && ordered[i].surfacedCount == db.counters[ordered[i].provider]
    {
      assert ordered[i] in multiset(candidates);
      var j :| 0 <= j < |candidates| && candidates[j] == ordered[i];
      assert candidates[j] == CandidateOf(db.counters, cards[j]);
    }
  }

  lemma ShownOnce(db: Db, rank: Id -> int, cards: seq<Card>, ordered: seq<Candidate>, shown: seq<Card>)
    requires OneRowEach(db.counters, cards) && ordered == Ordered(db, rank, cards) && |shown| == |ordered| == |cards|
    requires Placeable(db.counters, cards, ordered)
    requires forall i :: 0 <= i < |ordered| ==> FindCard(cards, ordered[i].provider) == Some(shown[i])
    ensures SameCards(cards, shown)
  {
    var candidates := Candidates(db.counters, cards);
    OrderMeans(rank, candidates);
    forall i | 0 <= i < |shown|
      ensures shown[i] in cards
    {
      OrderedIsPlaceable(db, rank, cards);
      FindCardFinds(cards, ordered[i].provider);
    }
    forall j | 0 <= j < |cards|
      ensures cards[j] in shown
    {
      assert candidates[j] in multiset(ordered);
      var i :| 0 <= i < |ordered| && ordered[i] == candidates[j];
      FindCardFinds(cards, cards[j].provider);
      SameProviderSameCard(cards, shown[i], cards[j]);
    }
  }

  /** The program's own parts of a first read. */
  lemma FirstReadParts(db: Db, rank: Id -> int, need: Id, filter: Filter, cards: seq<Card>)
    requires Valid(db) && need in db.needs && !db.needs[need].generated && OneRowEach(db.counters, cards)
    requires db.needs[need].filter.None? || db.needs[need].filter.value == filter
    ensures var ordered := Ordered(db, rank, cards);
            var placed := PlaceAll(db.surface, db.counters, need, filter, cards, ordered, 0);
            var shown := Respond(RowById(cards), ordered);
            && Placeable(db.counters, cards, ordered) && placed.Ok? && shown.Ok?
            && |shown.value| == |ordered| == |cards|
            && (forall i :: 0 <= i < |ordered| ==> FindCard(cards, ordered[i].provider) == Some(shown.value[i]))
            && Get(db, rank, need, filter, cards) ==
               Ok((Db(db.needs[need := NeedRow(Some(filter), true)], placed.value.0, placed.value.1), shown.value))
  {
    var ordered := Ordered(db, rank, cards);
    assert NeedOk(db, need);
    OrderedIsPlaceable(db, rank, cards);
    PlaceAllMeans(db.surface, db.counters, need, filter, cards, ordered, 0);
    RespondMeans(cards, ordered);
  }

  lemma PlacedAsShown(db: Db, after: Db, need: Id, filter: Filter, cards: seq<Card>, ordered: seq<Candidate>,
                      shown: seq<Card>)
    requires Placeable(db.counters, cards, ordered) && |shown| == |ordered|
    requires PlaceAll(db.surface, db.counters, need, filter, cards, ordered, 0) == Ok((after.surface, after.counters))
    requires forall i :: 0 <= i < |ordered| ==>
               && FindCard(cards, ordered[i].provider) == Some(shown[i])
               && shown[i].provider == ordered[i].provider && shown[i].provider in db.counters
               && ordered[i].surfacedCount == db.counters[shown[i].provider]
    ensures RowsAdded(db, after, need, filter, shown) && Counted(db.counters, after.counters, shown)
  {
    PlacedRows(db.surface, db.counters, need, filter, cards, ordered, 0);
    forall p | p in db.counters && (forall i :: 0 <= i < |shown| ==> shown[i].provider != p)
      ensures after.counters[p] == db.counters[p]
    {
      assert forall i :: 0 <= i < |ordered| ==> ordered[i].provider == shown[i].provider;
    }
  }

  /** A first read goes through, and shows every eligible provider once, the least surfaced first; it appends exactly
      the rows of what it shows, counts them, and fixes the filters. */
  lemma FirstReadInColumns(db: Db, rank: Id -> int, need: Id, filter: Filter, cards: seq<Card>)
    requires Valid(db) && need in db.needs && !db.needs[need].generated && OneRowEach(db.counters, cards)
    requires db.needs[need].filter.None? || db.needs[need].filter.value == filter
    ensures Get(db, rank, need, filter, cards).Ok?
    ensures var (after, shown) := Get(db, rank, need, filter, cards).value;
            && SameCards(cards, shown) && InCounterOrder(db.counters, rank, shown)
            && RowsAdded(db, after, need, filter, shown) && Counted(db.counters, after.counters, shown)
            && after.needs == db.needs[need := NeedRow(Some(filter), true)]
            && Apply(db, Read(rank, need, filter, cards)) == after
  {
    FirstReadParts(db, rank, need, filter, cards);
    var ordered := Ordered(db, rank, cards);
    var (after, shown) := Get(db, rank, need, filter, cards).value;
    ShownAsOrdered(db, rank, cards, ordered, shown);
    ShownOnce(db, rank, cards, ordered, shown);
    PlacedAsShown(db, after, need, filter, cards, ordered, shown);
    EligibleToRead(db, rank, need, filter, cards);
  }

  lemma EligibleToRead(db: Db, rank: Id -> int, need: Id, filter: Filter, cards: seq<Card>)
    requires OneRowEach(db.counters, cards) && Get(db, rank, need, filter, cards).Ok?
    ensures Apply(db, Read(rank, need, filter, cards)) == Get(db, rank, need, filter, cards).value.0
  {
  }

  /** A read of eligible rows is refused for an unknown need and for other filters than the first ones, and for
      nothing else; a read of what was generated writes nothing. */
  lemma ReadRefusedIff(db: Db, rank: Id -> int, need: Id, filter: Filter, cards: seq<Card>)
    requires Valid(db) && OneRowEach(db.counters, cards)
    ensures var r := Get(db, rank, need, filter, cards);
            && (r == Err(NeedNotFound) <==> need !in db.needs)
            && (r == Err(FilterMismatch) <==>
                  need in db.needs && db.needs[need].filter.Some? && db.needs[need].filter.value != filter)
            && (r.Err? ==> r.error == NeedNotFound || r.error == FilterMismatch)
            && (r.Ok? && db.needs[need].generated ==> r.value.0 == db)
  {
    if need in db.needs && !db.needs[need].generated &&
       (db.needs[need].filter.None? || db.needs[need].filter.value == filter) {
      FirstReadInColumns(db, rank, need, filter, cards);
    }
  }

  /** The insert for candidate k violates a unique key exactly if the need has a row of that provider or place. */
  lemma InsertRefusedIff(db: Db, need: Id, filter: Filter, cards: seq<Card>, ordered: seq<Candidate>, k: nat)
    requires k < |ordered| && FindCard(cards, ordered[k].provider).Some? && ordered[k].provider in db.counters
    requires k + 1 == |ordered|
    ensures PlaceAll(db.surface, db.counters, need, filter, cards, ordered, k) == Err(UniqueViolation) <==>
            exists i :: 0 <= i < |db.surface| && db.surface[i].need == need &&
                        (db.surface[i].provider == ordered[k].provider || db.surface[i].position == k + 1)
  {
  }

  /** A provider without a counter row counts as never surfaced. */
  lemma CandidateCounts(counters: map<Id, nat>, card: Card)
    ensures CandidateOf(counters, card).provider == card.provider
    ensures card.provider in counters ==> CandidateOf(counters, card).surfacedCount == counters[card.provider]
    ensures card.provider !in counters ==> CandidateOf(counters, card).surfacedCount == 0
  {
  }

  /** A new need has neither filters nor a directory, and a new provider a counter at zero; neither is overwritten. */
  lemma EntriesTakeEffect(db: Db, id: Id)
    ensures var after := Apply(db, NewNeed(id));
            && after.needs.Keys == db.needs.Keys + {id} && after.surface == db.surface && after.counters == db.counters
            && (forall n :: n in db.needs ==> after.needs[n] == db.needs[n])
            && (id !in db.needs ==> after.needs[id] == NeedRow(None, false))
    ensures var after := Apply(db, Register(id));
            && after.counters.Keys == db.counters.Keys + {id} && after.surface == db.surface
            && after.needs == db.needs
            && (forall p :: p in db.counters ==> after.counters[p] == db.counters[p])
            && (id !in db.counters ==> after.counters[id] == 0)
  {
  }
}
