/** The paid directory: its seeded order, its one-time generation, its replay, and the surfacing counters. */
module Directory {
  import opened Sequences

  type Id = nat

  datatype Filter = Filter(providerType: string, minimumTier: string)

  /** What a citizen is shown of a provider: the persisted snapshot and the response alike. */
  datatype Card = Card(provider: Id, displayName: string, tier: string, feeMin: string, feeMax: string,
                       languages: seq<string>)

  // ---- directory-order.ts ----

  datatype Candidate = Candidate(provider: Id, surfacedCount: nat)

  /** Fewest surfacings first; among equals by the collation rank of the seeded digest. */
  function ByCountThenKey(rank: Id -> int): (Candidate, Candidate) -> int {
    (l: Candidate, r: Candidate) =>
      if l.surfacedCount != r.surfacedCount then l.surfacedCount - r.surfacedCount
      else rank(l.provider) - rank(r.provider)
  }

  function OrderDirectoryCandidates(rank: Id -> int, candidates: seq<Candidate>): seq<Candidate> {
    SortBy(ByCountThenKey(rank), candidates)
  }

  lemma CandidateOrderIsLinear(rank: Id -> int, candidates: seq<Candidate>)
    ensures Linear(ByCountThenKey(rank), candidates)
  {
  }

  ghost predicate KeysDiffer(rank: Id -> int, candidates: seq<Candidate>) {
    forall c, d :: c in candidates && d in candidates && rank(c.provider) == rank(d.provider) ==>
      c.provider == d.provider
  }

  /** Nobody is dropped or repeated, and whoever was surfaced less often comes first. */
  lemma OrderMeans(rank: Id -> int, candidates: seq<Candidate>)
    ensures var ordered := OrderDirectoryCandidates(rank, candidates);
            && multiset(ordered) == multiset(candidates) && |ordered| == |candidates|
            && (forall i, j :: 0 <= i < j < |ordered| ==> ordered[i].surfacedCount <= ordered[j].surfacedCount)
            && (forall i, j :: 0 <= i < j < |ordered| && ordered[i].surfacedCount == ordered[j].surfacedCount ==>
                  rank(ordered[i].provider) <= rank(ordered[j].provider))
  {
    var cmp := ByCountThenKey(rank);
    CandidateOrderIsLinear(rank, candidates);
    SortPermutes(cmp, candidates);
    SortSorts(cmp, candidates);
    var ordered := OrderDirectoryCandidates(rank, candidates);
    forall i, j | 0 <= i < j < |ordered|
      ensures cmp(ordered[i], ordered[j]) <= 0
    {
    }
  }

  /** The order does not depend on the order in which the database delivers the candidates. */
  lemma OrderIsCanonical(rank: Id -> int, a: seq<Candidate>, b: seq<Candidate>)
    requires multiset(a) == multiset(b) && KeysDiffer(rank, a)
    ensures OrderDirectoryCandidates(rank, a) == OrderDirectoryCandidates(rank, b)
  {
    var cmp := ByCountThenKey(rank);
    var s, t := SortBy(cmp, a), SortBy(cmp, b);
    CandidateOrderIsLinear(rank, a);
    CandidateOrderIsLinear(rank, b);
    SortPermutes(cmp, a);
    SortPermutes(cmp, b);
    SortSorts(cmp, a);
    SortSorts(cmp, b);
    DifferentKeysAreStrict(rank, a);
    AntisymmetricSubset(cmp, a, s);
    SortedIsUnique(cmp, s, t);
  }

  lemma DifferentKeysAreStrict(rank: Id -> int, candidates: seq<Candidate>)
    requires KeysDiffer(rank, candidates)
    ensures Antisymmetric(ByCountThenKey(rank), candidates)
  {
  }

  // ---- Tables ----

  /** The directory columns of need_request. */
  datatype NeedRow = NeedRow(filter: Option<Filter>, generated: bool)

  datatype SurfaceRow = SurfaceRow(need: Id, provider: Id, position: nat, countSnapshot: nat, card: Card,
                                   filter: Filter)

  /** Every provider has its counter row from registration on, so the counters' keys are the providers. */
  datatype Db = Db(needs: map<Id, NeedRow>, surface: seq<SurfaceRow>, counters: map<Id, nat>)

  datatype DirectoryError = NeedNotFound | FilterMismatch | UniqueViolation | ForeignKeyViolation | CandidateNotFound

  /** The need's rows in the order of insertion. */
  function RowsFor(surface: seq<SurfaceRow>, need: Id): seq<SurfaceRow> {
    if surface == [] then []
    else
      var init := RowsFor(surface[..|surface| - 1], need);
      if surface[|surface| - 1].need == need then init + [surface[|surface| - 1]] else init
  }

  function ByPosition(): (SurfaceRow, SurfaceRow) -> int {
    (a: SurfaceRow, b: SurfaceRow) => a.position - b.position
  }

  function CardOfRow(row: SurfaceRow): Card {
    row.card
  }

  /** SELECT provider_snapshot … WHERE need_request_id = need ORDER BY position */
  function Persisted(surface: seq<SurfaceRow>, need: Id): seq<Card> {
    MapSeq(SortBy(ByPosition(), RowsFor(surface, need)), CardOfRow)
  }

  function CandidateOf(counters: map<Id, nat>, card: Card): Candidate {
    Candidate(card.provider, if card.provider in counters then counters[card.provider] else 0)
  }

  function Candidates(counters: map<Id, nat>, cards: seq<Card>): (candidates: seq<Candidate>)
    ensures |candidates| == |cards| && forall i :: 0 <= i < |cards| ==> candidates[i] == CandidateOf(counters, cards[i])
  {
    MapSeq(cards, card => CandidateOf(counters, card))
  }

  /** `candidates.rows.find(row => row.provider_id === p)` */
  function FindCard(cards: seq<Card>, p: Id): Option<Card> {
    if cards == [] then None else if cards[0].provider == p then Some(cards[0]) else FindCard(cards[1..], p)
  }

  lemma {:induction false} FindCardFinds(cards: seq<Card>, p: Id)
    requires exists i :: 0 <= i < |cards| && cards[i].provider == p
    ensures FindCard(cards, p).Some? && FindCard(cards, p).value in cards && FindCard(cards, p).value.provider == p
  {
    if cards[0].provider != p {
      var i :| 0 <= i < |cards| && cards[i].provider == p;
      assert cards[1..][i - 1].provider == p;
      FindCardFinds(cards[1..], p);
    }
  }

  function Surfacings(surface: seq<SurfaceRow>, p: Id): nat {
    if surface == [] then 0
    else Surfacings(surface[..|surface| - 1], p) + if surface[|surface| - 1].provider == p then 1 else 0
  }

  lemma AppendRow(surface: seq<SurfaceRow>, row: SurfaceRow, need: Id, p: Id)
    ensures RowsFor(surface + [row], need) == if row.need == need then RowsFor(surface, need) + [row]
                                              else RowsFor(surface, need)
    ensures Surfacings(surface + [row], p) == Surfacings(surface, p) + if row.provider == p then 1 else 0
  {
    assert (surface + [row])[..|surface|] == surface;
  }

  // ---- The invariant ----

  /** A need's rows carry the positions 1, 2, … in order, show the provider they name, and name nobody twice. */
  predicate WellPlaced(rows: seq<SurfaceRow>) {
    && (forall i :: 0 <= i < |rows| ==> rows[i].position == i + 1 && rows[i].card.provider == rows[i].provider)
    && (forall i, j :: 0 <= i < j < |rows| ==> rows[i].provider != rows[j].provider)
  }

  predicate NeedOk(db: Db, need: Id) {
    && WellPlaced(RowsFor(db.surface, need))
    && (need !in db.needs || !db.needs[need].generated ==> RowsFor(db.surface, need) == [])
    && (need in db.needs && db.needs[need].generated ==> db.needs[need].filter.Some?)
  }

  /** Each provider's counter is the number of times the provider was surfaced; without a counter, never. */
  ghost predicate CountersOk(surface: seq<SurfaceRow>, counters: map<Id, nat>) {
    forall p {:trigger Surfacings(surface, p)} :: (if p in counters then counters[p] else 0) == Surfacings(surface, p)
  }

  ghost predicate Valid(db: Db) {
    (forall need {:trigger NeedOk(db, need)} :: NeedOk(db, need)) && CountersOk(db.surface, db.counters)
  }

  // ---- Generation and replay ----

  predicate Taken(surface: seq<SurfaceRow>, need: Id, provider: Id, position: nat) {
    exists i :: 0 <= i < |surface| && surface[i].need == need &&
                (surface[i].provider == provider || surface[i].position == position)
  }

  /** The statements for the candidates from index k on: an INSERT into directory_surface and the counter's UPDATE
      each. */
  function PlaceAll(surface: seq<SurfaceRow>, counters: map<Id, nat>, need: Id, filter: Filter, cards: seq<Card>,
                    ordered: seq<Candidate>, k: nat): Result<(seq<SurfaceRow>, map<Id, nat>), DirectoryError>
    requires k <= |ordered|
    decreases |ordered| - k
  {
    if k == |ordered| then Ok((surface, counters))
    else
      var p := ordered[k].provider;
      var card := FindCard(cards, p);
      if card.None? then Err(CandidateNotFound)
      else if Taken(surface, need, p, k + 1) then Err(UniqueViolation)
      else if p !in counters then Err(ForeignKeyViolation)
      else
        var row := SurfaceRow(need, p, k + 1, ordered[k].surfacedCount, card.value, filter);
        PlaceAll(surface + [row], counters[p := counters[p] + 1], need, filter, cards, ordered, k + 1)
  }

  /** `new Map(candidates.rows.map(…))` */
  function RowById(cards: seq<Card>): map<Id, Card> {
    if cards == [] then map[] else RowById(cards[..|cards| - 1])[cards[|cards| - 1].provider := cards[|cards| - 1]]
  }

  /** `ordered.map(candidate => rowById.get(candidate.providerId))` */
  function Respond(rowById: map<Id, Card>, ordered: seq<Candidate>): Result<seq<Card>, DirectoryError> {
    if ordered == [] then Ok([])
    else if ordered[0].provider !in rowById then Err(CandidateNotFound)
    else
      var rest :- Respond(rowById, ordered[1..]);
      Ok([rowById[ordered[0].provider]] + rest)
  }

  function Ordered(db: Db, rank: Id -> int, cards: seq<Card>): seq<Candidate> {
    OrderDirectoryCandidates(rank, Candidates(db.counters, cards))
  }

  /** GET /v1/needs/:id/directory for a paid need; `cards` are the eligibility query's rows. */
  function Get(db: Db, rank: Id -> int, need: Id, filter: Filter,
               cards: seq<Card>): Result<(Db, seq<Card>), DirectoryError>
  {
    if need !in db.needs then Err(NeedNotFound)
    else if db.needs[need].filter.Some? && db.needs[need].filter.value != filter then Err(FilterMismatch)
    else if db.needs[need].generated then Ok((db, Persisted(db.surface, need)))
    else
      var ordered := Ordered(db, rank, cards);
      var placed :- PlaceAll(db.surface, db.counters, need, filter, cards, ordered, 0);
      var response :- Respond(RowById(cards), ordered);
      Ok((Db(db.needs[need := NeedRow(Some(filter), true)], placed.0, placed.1), response))
  }

  /** The primary keys and foreign keys behind the eligibility query: one row a provider, each a known provider. */
  predicate Eligible(counters: map<Id, nat>, cards: seq<Card>) {
    && (forall i :: 0 <= i < |cards| ==> cards[i].provider in counters)
    && (forall i, j :: 0 <= i < j < |cards| ==> cards[i].provider != cards[j].provider)
  }

  /** The need's rows after the first k statements. */
  predicate PlacedSoFar(rows: seq<SurfaceRow>, need: Id, filter: Filter, cards: seq<Card>, ordered: seq<Candidate>,
                        k: nat)
  {
    && |rows| == k <= |ordered|
    && forall i :: 0 <= i < k ==>
         && rows[i].need == need && rows[i].provider == ordered[i].provider && rows[i].position == i + 1
         && rows[i].countSnapshot == ordered[i].surfacedCount && rows[i].filter == filter
         && FindCard(cards, ordered[i].provider) == Some(rows[i].card)
  }

  predicate Placeable(counters: map<Id, nat>, cards: seq<Card>, ordered: seq<Candidate>) {
    && (forall i :: 0 <= i < |ordered| ==>
          ordered[i].provider in counters && FindCard(cards, ordered[i].provider).Some? &&
                                           FindCard(cards, ordered[i].provider).value.provider == ordered[i].provider)
    && (forall i, j :: 0 <= i < j < |ordered| ==> ordered[i].provider != ordered[j].provider)
  }

  lemma {:induction false} RowsForMembers(surface: seq<SurfaceRow>, need: Id, i: nat)
    requires i < |surface| && surface[i].need == need
    ensures exists j :: 0 <= j < |RowsFor(surface, need)| && RowsFor(surface, need)[j] == surface[i]
    decreases |surface|
  {
    var init := surface[..|surface| - 1];
    if i < |init| {
      RowsForMembers(init, need, i);
      var j :| 0 <= j < |RowsFor(init, need)| && RowsFor(init, need)[j] == init[i];
      assert RowsFor(surface, need)[j] == surface[i];
    } else {
      assert RowsFor(surface, need)[|RowsFor(init, need)|] == surface[i];
    }
  }

  lemma NextIsFree(surface: seq<SurfaceRow>, need: Id, filter: Filter, cards: seq<Card>, ordered: seq<Candidate>,
                   k: nat, counters: map<Id, nat>)
    requires k < |ordered| && Placeable(counters, cards, ordered)
    requires PlacedSoFar(RowsFor(surface, need), need, filter, cards, ordered, k)
    ensures !Taken(surface, need, ordered[k].provider, k + 1)
  {
    forall i | 0 <= i < |surface| && surface[i].need == need
      ensures surface[i].provider != ordered[k].provider && surface[i].position != k + 1
    {
      RowsForMembers(surface, need, i);
      var j :| 0 <= j < |RowsFor(surface, need)| && RowsFor(surface, need)[j] == surface[i];
    }
  }

  lemma CountersAfterRow(surface: seq<SurfaceRow>, counters: map<Id, nat>, row: SurfaceRow)
    requires CountersOk(surface, counters) && row.provider in counters
    ensures CountersOk(surface + [row], counters[row.provider := counters[row.provider] + 1])
  {
    var after := counters[row.provider := counters[row.provider] + 1];
    forall p: Id
      ensures (if p in after then after[p] else 0) == Surfacings(surface + [row], p)
    {
      AppendRow(surface, row, 0, p);
      assert (if p in counters then counters[p] else 0) == Surfacings(surface, p);
    }
  }

  /** No statement of the loop fails, the need gets exactly the ordered rows, and nobody else's rows move. */
  lemma {:induction false} PlaceAllMeans(surface: seq<SurfaceRow>, counters: map<Id, nat>, need: Id, filter: Filter,
                                         cards: seq<Card>,
                                         ordered: seq<Candidate>, k: nat)
    requires k <= |ordered| && Placeable(counters, cards, ordered) && CountersOk(surface, counters)
    requires PlacedSoFar(RowsFor(surface, need), need, filter, cards, ordered, k)
    ensures var r := PlaceAll(surface, counters, need, filter, cards, ordered, k);
            && r.Ok?
            && PlacedSoFar(RowsFor(r.value.0, need), need, filter, cards, ordered, |ordered|)
            && CountersOk(r.value.0, r.value.1) && r.value.1.Keys == counters.Keys
            && forall n :: n != need ==> RowsFor(r.value.0, n) == RowsFor(surface, n)
    decreases |ordered| - k
  {
    if k < |ordered| {
      var p := ordered[k].provider;
      NextIsFree(surface, need, filter, cards, ordered, k, counters);
      var row := SurfaceRow(need, p, k + 1, ordered[k].surfacedCount, FindCard(cards, p).value, filter);
      CountersAfterRow(surface, counters, row);
      forall n: Id
        ensures RowsFor(surface + [row], n) == if n == need then RowsFor(surface, n) + [row] else RowsFor(surface, n)
      {
        AppendRow(surface, row, n, 0);
      }
      PlaceAllMeans(surface + [row], counters[p := counters[p] + 1], need, filter, cards, ordered, k + 1);
    }
  }

  lemma {:induction false} RowByIdMeans(cards: seq<Card>, p: Id)
    requires forall i, j :: 0 <= i < j < |cards| ==> cards[i].provider != cards[j].provider
    ensures p in RowById(cards) <==> exists i :: 0 <= i < |cards| && cards[i].provider == p
    ensures p in RowById(cards) ==> RowById(cards)[p] in cards && RowById(cards)[p].provider == p
  {
    if cards != [] {
      var n := |cards| - 1;
      RowByIdMeans(cards[..n], p);
      assert p in RowById(cards[..n]) ==> exists i :: 0 <= i < n && cards[i].provider == p;
      assert (exists i :: 0 <= i < n && cards[i].provider == p) ==>
               exists i :: 0 <= i < |cards[..n]| && cards[..n][i].provider == p by {
        if i :| 0 <= i < n && cards[i].provider == p { assert cards[..n][i].provider == p; }
      }
    }
  }

  lemma SameCardPlace(s: seq<Card>, i: nat, j: nat)
    requires (forall x, y :: 0 <= x < y < |s| ==> s[x].provider != s[y].provider) && i < |s| && j < |s|
    requires s[i].provider == s[j].provider
    ensures i == j
  {
  }

  lemma SamePlace(s: seq<Candidate>, i: nat, j: nat)
    requires (forall x, y :: 0 <= x < y < |s| ==> s[x].provider != s[y].provider) && i < |s| && j < |s|
    requires s[i].provider == s[j].provider
    ensures i == j
  {
  }

  lemma SameProviderSameCard(cards: seq<Card>, c: Card, d: Card)
    requires forall i, j :: 0 <= i < j < |cards| ==> cards[i].provider != cards[j].provider
    requires c in cards && d in cards && c.provider == d.provider
    ensures c == d
  {
    var i :| 0 <= i < |cards| && cards[i] == c;
    var j :| 0 <= j < |cards| && cards[j] == d;
    SameCardPlace(cards, i, j);
  }

  lemma {:induction false} RespondMeans(cards: seq<Card>, ordered: seq<Candidate>)
    requires forall i, j :: 0 <= i < j < |cards| ==> cards[i].provider != cards[j].provider
    requires forall i :: 0 <= i < |ordered| ==> exists j :: 0 <= j < |cards| && cards[j].provider == ordered[i].provider
    ensures var r := Respond(RowById(cards), ordered);
            && r.Ok? && |r.value| == |ordered|
            && forall i :: 0 <= i < |ordered| ==> FindCard(cards, ordered[i].provider) == Some(r.value[i])
  {
    if ordered != [] {
      var p := ordered[0].provider;
      RowByIdMeans(cards, p);
      FindCardFinds(cards, p);
      SameProviderSameCard(cards, RowById(cards)[p], FindCard(cards, p).value);
      forall i | 0 <= i < |ordered[1..]|
        ensures exists j :: 0 <= j < |cards| && cards[j].provider == ordered[1..][i].provider
      {
        assert ordered[1..][i] == ordered[i + 1];
      }
      RespondMeans(cards, ordered[1..]);
      assert forall i :: 1 <= i < |ordered| ==> ordered[i] == ordered[1..][i - 1];
    }
  }

  /** The new order is made of the query's rows, one candidate each. */
  lemma OrderedIsPlaceable(db: Db, rank: Id -> int, cards: seq<Card>)
    requires Eligible(db.counters, cards)
    ensures Placeable(db.counters, cards, Ordered(db, rank, cards)) && |Ordered(db, rank, cards)| == |cards|
    ensures forall i :: 0 <= i < |cards| ==>
              exists j :: 0 <= j < |cards| && cards[j].provider == Ordered(db, rank, cards)[i].provider
  {
    var candidates, ordered := Candidates(db.counters, cards), Ordered(db, rank, cards);
    OrderMeans(rank, candidates);
    forall i | 0 <= i < |ordered|
      ensures exists j :: 0 <= j < |cards| && cards[j].provider == ordered[i].provider
    {
      assert ordered[i] in multiset(candidates);
      var j :| 0 <= j < |candidates| && candidates[j] == ordered[i];
      assert cards[j].provider == ordered[i].provider;
    }
    forall i | 0 <= i < |ordered|
      ensures ordered[i].provider in db.counters && FindCard(cards, ordered[i].provider).Some? &&
              FindCard(cards, ordered[i].provider).value.provider == ordered[i].provider
    {
      FindCardFinds(cards, ordered[i].provider);
    }
    DistinctProviders(candidates, ordered);
  }

  lemma DistinctProviders(a: seq<Candidate>, b: seq<Candidate>)
    requires multiset(a) == multiset(b) && |a| == |b|
    requires forall i, j :: 0 <= i < j < |a| ==> a[i].provider != a[j].provider
    ensures forall i, j :: 0 <= i < j < |b| ==> b[i].provider != b[j].provider
  {
    forall i, j | 0 <= i < j < |b|
      ensures b[i].provider != b[j].provider
    {
      if b[i].provider == b[j].provider {
        assert b[i] in multiset(a) && b[j] in multiset(a);
        var x :| 0 <= x < |a| && a[x] == b[i];
        var y :| 0 <= y < |a| && a[y] == b[j];
        SamePlace(a, x, y);
        TwiceInMultiset(b, i, j);
        OnceInMultiset(a, x);
      }
    }
  }

  lemma TwiceInMultiset(s: seq<Candidate>, i: nat, j: nat)
    requires i < j < |s| && s[i] == s[j]
    ensures multiset(s)[s[i]] >= 2
  {
    assert s == s[..i] + [s[i]] + s[i + 1..j] + [s[j]] + s[j + 1..];
  }

  lemma OnceInMultiset(s: seq<Candidate>, x: nat)
    requires x < |s| && forall i, j :: 0 <= i < j < |s| ==> s[i].provider != s[j].provider
    ensures multiset(s)[s[x]] == 1
  {
    assert s == s[..x] + [s[x]] + s[x + 1..];
    assert s[x] !in s[..x] && s[x] !in s[x + 1..];
  }

  // ---- Results ----

  /** Rows in position order are in the order in which they were inserted. */
  lemma PersistedInOrder(surface: seq<SurfaceRow>, need: Id)
    requires WellPlaced(RowsFor(surface, need))
    ensures var rows := RowsFor(surface, need);
            |Persisted(surface, need)| == |rows| &&
            forall i :: 0 <= i < |rows| ==> Persisted(surface, need)[i] == rows[i].card
  {
    var rows := RowsFor(surface, need);
    var cmp := ByPosition();
    SortPermutes(cmp, rows);
    SortSorts(cmp, rows);
    assert Sorted(cmp, rows);
    PositionsAreStrict(rows);
    SortedIsUnique(cmp, rows, SortBy(cmp, rows));
  }

  lemma PositionsAreStrict(rows: seq<SurfaceRow>)
    requires WellPlaced(rows)
    ensures Antisymmetric(ByPosition(), rows)
  {
  }

  /** The rows that a first read persists for the need. */
  predicate GeneratedAs(db: Db, rank: Id -> int, need: Id, filter: Filter, cards: seq<Card>, rows: seq<SurfaceRow>) {
    PlacedSoFar(rows, need, filter, cards, Ordered(db, rank, cards), |cards|)
  }

  lemma FirstReadSucceeds(db: Db, rank: Id -> int, need: Id, filter: Filter, cards: seq<Card>)
    requires Valid(db) && need in db.needs && !db.needs[need].generated && Eligible(db.counters, cards)
    requires db.needs[need].filter.None? || db.needs[need].filter.value == filter
    ensures Get(db, rank, need, filter, cards).Ok?
    ensures var (after, response) := Get(db, rank, need, filter, cards).value;
            && GeneratedAs(db, rank, need, filter, cards, RowsFor(after.surface, need))
            && |response| == |cards|
            && (forall i :: 0 <= i < |cards| ==> RowsFor(after.surface, need)[i].card == response[i])
            && CountersOk(after.surface, after.counters) && after.counters.Keys == db.counters.Keys
            && after.needs == db.needs[need := NeedRow(Some(filter), true)]
            && (forall n :: n != need ==> RowsFor(after.surface, n) == RowsFor(db.surface, n))
  {
    var ordered := Ordered(db, rank, cards);
    assert NeedOk(db, need);
    OrderedIsPlaceable(db, rank, cards);
    PlaceAllMeans(db.surface, db.counters, need, filter, cards, ordered, 0);
    RespondMeans(cards, ordered);
  }

  lemma GeneratedIsWellPlaced(db: Db, rank: Id -> int, need: Id, filter: Filter, cards: seq<Card>,
                              rows: seq<SurfaceRow>)
    requires Eligible(db.counters, cards) && GeneratedAs(db, rank, need, filter, cards, rows)
    ensures WellPlaced(rows)
  {
    OrderedIsPlaceable(db, rank, cards);
  }

  /** A first read keeps the invariant, and what it answers is exactly what it persisted. */
  lemma FirstReadPersists(db: Db, rank: Id -> int, need: Id, filter: Filter, cards: seq<Card>)
    requires Valid(db) && need in db.needs && !db.needs[need].generated && Eligible(db.counters, cards)
    requires db.needs[need].filter.None? || db.needs[need].filter.value == filter
    ensures Get(db, rank, need, filter, cards).Ok?
    ensures var (after, response) := Get(db, rank, need, filter, cards).value;
            Valid(after) && Persisted(after.surface, need) == response
  {
    FirstReadSucceeds(db, rank, need, filter, cards);
    var (after, response) := Get(db, rank, need, filter, cards).value;
    GeneratedIsWellPlaced(db, rank, need, filter, cards, RowsFor(after.surface, need));
    PersistedInOrder(after.surface, need);
    forall n: Id
      ensures NeedOk(after, n)
    {
      assert NeedOk(db, n);
    }
  }

  // ---- Runs ----

  datatype Step =
    | NewNeed(id: Id)
    | Register(provider: Id)
    | Read(rank: Id -> int, need: Id, filter: Filter, cards: seq<Card>)

  /** A read whose cards break the keys behind the eligibility query cannot occur. */
  function Apply(db: Db, step: Step): Db {
    match step
    case NewNeed(id) => if id in db.needs then db else db.(needs := db.needs[id := NeedRow(None, false)])
    case Register(p) => if p in db.counters then db else db.(counters := db.counters[p := 0])
    case Read(rank, need, filter, cards) =>
      if Eligible(db.counters, cards) && Get(db, rank, need, filter, cards).Ok? then
        Get(db, rank, need, filter, cards).value.0
      else db
  }

  function Run(db: Db, steps: seq<Step>): Db
    decreases |steps|
  {
    if steps == [] then db else Run(Apply(db, steps[0]), steps[1..])
  }

  const EMPTY := Db(map[], [], map[])

  lemma StepKeeps(db: Db, step: Step)
    requires Valid(db)
    ensures Valid(Apply(db, step))
  {
    var after := Apply(db, step);
    match step {
      case Read(rank, need, filter, cards) =>
        if Eligible(db.counters, cards) && Get(db, rank, need, filter, cards).Ok? && !db.needs[need].generated {
          FirstReadPersists(db, rank, need, filter, cards);
        }
      case NewNeed(id) =>
        forall n: Id
          ensures NeedOk(after, n)
        {
          assert NeedOk(db, n);
        }
      case Register(p) =>
        forall n: Id
          ensures NeedOk(after, n)
        {
          assert NeedOk(db, n);
        }
        forall q: Id
          ensures (if q in after.counters then after.counters[q] else 0) == Surfacings(after.surface, q)
        {
          assert (if q in db.counters then db.counters[q] else 0) == Surfacings(db.surface, q);
        }
    }
  }

  lemma {:induction false} RunKeeps(db: Db, steps: seq<Step>)
    requires Valid(db)
    ensures Valid(Run(db, steps))
    decreases |steps|
  {
    if steps != [] {
      StepKeeps(db, steps[0]);
      RunKeeps(Apply(db, steps[0]), steps[1..]);
    }
  }

  lemma EmptyIsValid()
    ensures Valid(EMPTY)
  {
    forall n: Id
      ensures NeedOk(EMPTY, n)
    {
    }
  }

  /** After every run a provider's counter is its number of surface rows, and each need's positions are 1, 2, … n. */
  lemma CountersCountSurfacings(steps: seq<Step>, p: Id, need: Id)
    ensures var db := Run(EMPTY, steps);
            && (p in db.counters ==> db.counters[p] == Surfacings(db.surface, p))
            && (forall i :: 0 <= i < |RowsFor(db.surface, need)| ==> RowsFor(db.surface, need)[i].position == i + 1)
  {
    EmptyIsValid();
    RunKeeps(EMPTY, steps);
    var db := Run(EMPTY, steps);
    assert NeedOk(db, need);
    assert (if p in db.counters then db.counters[p] else 0) == Surfacings(db.surface, p);
  }

  lemma StepLeavesGenerated(db: Db, step: Step, need: Id)
    requires Valid(db) && need in db.needs && db.needs[need].generated
    ensures var after := Apply(db, step);
            need in after.needs && after.needs[need] == db.needs[need] &&
            RowsFor(after.surface, need) == RowsFor(db.surface, need)
  {
    match step {
      case Read(rank, other, filter, cards) =>
        if Eligible(db.counters, cards) && Get(db, rank, other, filter, cards).Ok? && !db.needs[other].generated {
          FirstReadSucceeds(db, rank, other, filter, cards);
        }
      case NewNeed(_) =>
      case Register(_) =>
    }
  }

  lemma {:induction false} RunLeavesGenerated(db: Db, steps: seq<Step>, need: Id)
    requires Valid(db) && need in db.needs && db.needs[need].generated
    ensures var after := Run(db, steps);
            need in after.needs && after.needs[need] == db.needs[need] &&
            RowsFor(after.surface, need) == RowsFor(db.surface, need)
    decreases |steps|
  {
    if steps != [] {
      StepKeeps(db, steps[0]);
      StepLeavesGenerated(db, steps[0], need);
      RunLeavesGenerated(Apply(db, steps[0]), steps[1..], need);
    }
  }

  /** Replay: whatever happens after the first read, and whoever would be eligible by then, the same filters get the
      first response again and nothing is written, and other filters are refused. */
  lemma LaterReadsReplay(db: Db, rank: Id -> int, need: Id, filter: Filter, cards: seq<Card>, steps: seq<Step>,
                         rank': Id -> int, filter': Filter, cards': seq<Card>)
    requires Valid(db) && need in db.needs && !db.needs[need].generated && Eligible(db.counters, cards)
    requires Get(db, rank, need, filter, cards).Ok?
    ensures var (first, response) := Get(db, rank, need, filter, cards).value;
            var later := Run(first, steps);
            Get(later, rank', need, filter', cards') == if filter' == filter then Ok((later, response))
                                                        else Err(FilterMismatch)
  {
    FirstReadSucceeds(db, rank, need, filter, cards);
    FirstReadPersists(db, rank, need, filter, cards);
    var (first, response) := Get(db, rank, need, filter, cards).value;
    RunLeavesGenerated(first, steps, need);
    var later := Run(first, steps);
    assert Persisted(later.surface, need) == Persisted(first.surface, need);
  }

  // ---- The route ----

  class DirectoryStore {
    var needs: map<Id, NeedRow>
    var surface: seq<SurfaceRow>
    var counters: map<Id, nat>

    function State(): Db
      reads this
    {
      Db(needs, surface, counters)
    }

    constructor ()
      ensures State() == EMPTY
    {
      needs, surface, counters := map[], [], map[];
    }

    /** Two statements per candidate, in the new order; an error leaves before anything is committed. */
    method Generate(rank: Id -> int, need: Id, filter: Filter, cards: seq<Card>)
        returns (response: Result<seq<Card>, DirectoryError>)
      requires Valid(State()) && Eligible(counters, cards)
      modifies this
      ensures Valid(State())
      ensures match Get(old(State()), rank, need, filter, cards)
              case Ok((after, shown)) => response == Ok(shown) && State() == after
              case Err(error) => response == Err(error) && State() == old(State())
      ensures response.Ok? ==> Persisted(surface, need) == response.value
    {
      ghost var before := State();
      if need !in needs { return Err(NeedNotFound); }
      if needs[need].filter.Some? && needs[need].filter.value != filter { return Err(FilterMismatch); }
      if needs[need].generated { return Ok(Persisted(surface, need)); }
      FirstReadPersists(before, rank, need, filter, cards);
      var ordered := Ordered(State(), rank, cards);
      var rows, counts := surface, counters;
      for index := 0 to |ordered|
        invariant PlaceAll(rows, counts, need, filter, cards, ordered, index) ==
                  PlaceAll(surface, counters, need, filter, cards, ordered, 0)
      {
        var p := ordered[index].provider;
        var card := FindCard(cards, p);
        if card.None? { return Err(CandidateNotFound); }
        if Taken(rows, need, p, index + 1) { return Err(UniqueViolation); }
        if p !in counts { return Err(ForeignKeyViolation); }
        rows := rows + [SurfaceRow(need, p, index + 1, ordered[index].surfacedCount, card.value, filter)];
        counts := counts[p := counts[p] + 1];
      }
      response := Respond(RowById(cards), ordered);
      if response.Ok? {
        needs, surface, counters := needs[need := NeedRow(Some(filter), true)], rows, counts;
      }
    }
  }
}
