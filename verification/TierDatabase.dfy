/** The authoritative decision: the queries of `finalize_verification_case`, clause by clause. */
module TierDatabase {
  import opened Sequences
  import opened CredentialPolicy
  import opened TierDecision

  // ---- SQL values: NULL is None, and LEAST and min ignore it ----

  datatype Timestamp = At(ms: int) | Infinity

  predicate Earlier(a: Timestamp, b: Timestamp) {
    a.At? && (b.Infinity? || a.ms < b.ms)
  }

  /** LEAST(a, b), and the step of the min() aggregate. */
  function Least(a: Option<Timestamp>, b: Option<Timestamp>): Option<Timestamp> {
    if a.None? then b else if b.None? then a else if Earlier(b.value, a.value) then b else a
  }

  function Min(values: seq<Option<Timestamp>>): Option<Timestamp> {
    if values == [] then None else Least(values[0], Min(values[1..]))
  }

  function Coalesce<T>(value: Option<T>, default: T): T {
    if value.Some? then value.value else default
  }

  /** bool_and: NULL over no rows. */
  function BoolAnd(values: seq<bool>): Option<bool> {
    if values == [] then None else Some(forall v :: v in values ==> v)
  }

  function ValidUntil(c: Check): Option<Timestamp> {
    if c.validUntil.Some? then Some(At(c.validUntil.value)) else None
  }

  // ---- The `latest` table expressions ----

  datatype Row = Row(check: Check, evidenceKind: EvidenceKind)

  /** JOIN LATERAL jsonb_array_elements(sources) source ON source.sourceId = check.source_id */
  function JoinSources(checks: seq<Check>, sources: seq<Source>): seq<Row> {
    if checks == [] then []
    else
      var matching := Filter(sources, (s: Source) => s.sourceId == checks[0].sourceId);
      MapSeq(matching, (s: Source) => Row(checks[0], s.evidenceKind)) + JoinSources(checks[1..], sources)
  }

  /** DISTINCT ON (key): of the rows in their sorted order, the first of each key. */
  function DistinctOn<T>(sorted: seq<T>, key: T -> (string, string), seen: set<(string, string)>): seq<T> {
    if sorted == [] then []
    else if key(sorted[0]) in seen then DistinctOn(sorted[1..], key, seen)
    else [sorted[0]] + DistinctOn(sorted[1..], key, seen + {key(sorted[0])})
  }

  /** ORDER BY …, recorded_sequence DESC within each group. */
  function LatestFirst(l: Check, r: Check): int {
    r.recordedSequence - l.recordedSequence
  }

  function LatestRowFirst(l: Row, r: Row): int {
    LatestFirst(l.check, r.check)
  }

  function VisibleChecks(checks: seq<Check>, now: int): seq<Check> {
    Filter(checks, (c: Check) => Visible(c, now))
  }

  /** `latest` of the conflict query. */
  function LatestChecks(checks: seq<Check>, now: int): seq<Check> {
    DistinctOn(SortBy(LatestFirst, VisibleChecks(checks, now)), (c: Check) => (c.checkType, c.sourceId), {})
  }

  /** `latest` of the three evidence queries. */
  function LatestRows(checks: seq<Check>, sources: seq<Source>, now: int): seq<Row> {
    DistinctOn(SortBy(LatestRowFirst, JoinSources(VisibleChecks(checks, now), sources)),
               (r: Row) => (r.check.checkType, r.check.sourceId), {})
  }

  // ---- LATERAL (… ORDER BY checked_at DESC, recorded_sequence DESC LIMIT 1) ----

  function NewestFirst(l: Row, r: Row): int {
    if r.check.checkedAt != l.check.checkedAt then r.check.checkedAt - l.check.checkedAt
    else r.check.recordedSequence - l.check.recordedSequence
  }

  predicate DocumentRow(leg: Leg, now: int, r: Row) {
    && Covers(leg, r.check) && r.check.sourceMode == Live && r.check.result == Pass
    && !IsNonTier(r.evidenceKind)
    && r.check.checkedAt <= now && Unexpired(r.check, now)
  }

  predicate AuthorityRow(leg: Leg, now: int, freshness: int, r: Row) {
    && Covers(leg, r.check) && r.check.sourceMode == Live && r.check.result == Pass
    && r.evidenceKind == Authority
    && r.check.checkedAt <= now && r.check.checkedAt > now - freshness && Unexpired(r.check, now)
  }

  function FirstNewest(rows: seq<Row>): Option<Row> {
    var sorted := SortBy(NewestFirst, rows);
    if sorted == [] then None else Some(sorted[0])
  }

  function DocumentFor(latest: seq<Row>, leg: Leg, now: int): Option<Row> {
    FirstNewest(Filter(latest, (r: Row) => DocumentRow(leg, now, r)))
  }

  function AuthorityFor(latest: seq<Row>, leg: Leg, now: int, freshness: int): Option<Row> {
    FirstNewest(Filter(latest, (r: Row) => AuthorityRow(leg, now, freshness, r)))
  }

  // ---- The decision ----

  predicate ConflictExists(latest: seq<Check>, p: Policy) {
    exists c, leg :: c in latest && leg in AllLegs(p) && Covers(leg, c) &&
                     (c.result == Mismatch || c.result == Conflict)
  }

  function RowExpiry(r: Option<Row>): Option<Timestamp> {
    if r.Some? then ValidUntil(r.value.check) else None
  }

  /** LEAST(freshness_expiry, COALESCE(valid_until, 'infinity')) */
  function AuthorityExpiry(r: Option<Row>, freshness: int): Option<Timestamp> {
    Least(if r.Some? then Some(At(r.value.check.checkedAt + freshness)) else None,
          Some(Coalesce(RowExpiry(r), Infinity)))
  }

  function FinalExpiry(now: int, freshness: int, documentExpiry: Option<Timestamp>, identityExpiry: Option<Timestamp>,
                       authorityExpiry: Option<Timestamp>): Option<Timestamp>
  {
    Least(Some(At(now + freshness)),
          Least(Some(Coalesce(documentExpiry, Infinity)),
                Least(Some(Coalesce(identityExpiry, Infinity)), authorityExpiry)))
  }

  function ToInstant(t: Option<Timestamp>): Option<int> {
    if t.Some? && t.value.At? then Some(t.value.ms) else None
  }

  function FinalizeDecision(checks: seq<Check>, p: Policy, now: int): Decision {
    var freshness := p.currentAuthorityFreshnessMs;
    var latest := LatestRows(checks, p.sources, now);
    var documents := MapSeq(p.requiredDocumentLegs, (leg: Leg) => DocumentFor(latest, leg, now));
    var identity := DocumentFor(latest, p.identityConsistencyLeg, now);
    var authority := MapSeq(p.currentAuthorityLegs, (leg: Leg) => AuthorityFor(latest, leg, now, freshness));
    if ConflictExists(LatestChecks(checks, now), p) then
      Decision(SelfDeclared, [UnresolvedCredentialConflict], None)
    else if !Coalesce(BoolAnd(Found(documents)), false) then
      Decision(SelfDeclared, [RequiredEvidenceIncomplete], None)
    else if !identity.Some? then
      Decision(SelfDeclared, [IdentityConsistencyRequired], None)
    else if !Coalesce(BoolAnd(Found(authority)), false) then
      Decision(DocumentVerified, [CurrentLiveAuthorityRequired], None)
    else
      Decision(FullyVerified, [CurrentLiveAuthorityConfirmed],
               ToInstant(FinalExpiry(now, freshness, Min(Expiries(documents)), RowExpiry(identity),
                                     Min(AuthorityExpiries(authority, freshness)))))
  }

  function Found(rows: seq<Option<Row>>): seq<bool> {
    MapSeq(rows, (r: Option<Row>) => r.Some?)
  }

  function Expiries(rows: seq<Option<Row>>): seq<Option<Timestamp>> {
    MapSeq(rows, (r: Option<Row>) => RowExpiry(r))
  }

  function AuthorityExpiries(rows: seq<Option<Row>>, freshness: int): seq<Option<Timestamp>> {
    MapSeq(rows, (r: Option<Row>) => AuthorityExpiry(r, freshness))
  }

  // ---- What the table expressions hold ----

  lemma {:induction false} DistinctOnMeans<T>(sorted: seq<T>, key: T -> (string, string), seen: set<(string, string)>,
                                              x: T)
    ensures x in DistinctOn(sorted, key, seen) <==>
            exists i :: 0 <= i < |sorted| && sorted[i] == x && IsFirst(sorted, key, seen, i)
  {
    if sorted != [] {
      var head, tail := sorted[0], sorted[1..];
      var seen' := seen + {key(head)};
      DistinctOnMeans(tail, key, seen', x);
      if key(head) in seen { assert seen' == seen; }
      forall i | 0 <= i < |tail|
        ensures IsFirst(tail, key, seen', i) <==> IsFirst(sorted, key, seen, i + 1)
      {
        if IsFirst(tail, key, seen', i) {
          forall j | 0 <= j < i + 1
            ensures key(sorted[j]) != key(sorted[i + 1])
          {
            if j > 0 { assert sorted[j] == tail[j - 1]; }
          }
        }
        if IsFirst(sorted, key, seen, i + 1) {
          assert key(sorted[0]) != key(sorted[i + 1]);
          assert forall j :: 0 <= j < i ==> tail[j] == sorted[j + 1];
        }
      }
      assert IsFirst(sorted, key, seen, 0) <==> key(head) !in seen;
      if i :| 0 <= i < |tail| && tail[i] == x && IsFirst(tail, key, seen', i) {
        assert sorted[i + 1] == x;
      }
      if i :| 0 <= i < |sorted| && sorted[i] == x && IsFirst(sorted, key, seen, i) {
        if i > 0 { assert tail[i - 1] == x && IsFirst(tail, key, seen', i - 1); }
      }
    }
  }

  ghost predicate IsFirst<T>(sorted: seq<T>, key: T -> (string, string), seen: set<(string, string)>, i: int)
    requires 0 <= i < |sorted|
  {
    key(sorted[i]) !in seen && forall j :: 0 <= j < i ==> key(sorted[j]) != key(sorted[i])
  }

  /** DISTINCT ON over a strictly sorted list keeps, of each key, the row that sorts first. */
  lemma DistinctOnSorted<T>(rows: seq<T>, cmp: (T, T) -> int, key: T -> (string, string), x: T)
    requires Linear(cmp, rows) && Antisymmetric(cmp, rows)
    ensures x in DistinctOn(SortBy(cmp, rows), key, {}) <==> LeadsItsKey(rows, cmp, key, x)
  {
    var sorted := SortBy(cmp, rows);
    SortPermutes(cmp, rows);
    SortSorts(cmp, rows);
    DistinctOnMeans(sorted, key, {}, x);
    if i :| 0 <= i < |sorted| && sorted[i] == x && IsFirst(sorted, key, {}, i) {
      SameMultisetSameElements(sorted, rows, x);
      forall y | y in rows && key(y) == key(x)
        ensures cmp(x, y) <= 0
      {
        SameMultisetSameElements(rows, sorted, y);
        var k :| 0 <= k < |sorted| && sorted[k] == y;
        if k == i { assert cmp(x, x) <= 0 || cmp(x, x) <= 0; }
      }
    }
    if LeadsItsKey(rows, cmp, key, x) {
      SameMultisetSameElements(rows, sorted, x);
      var i := FirstIndex(sorted, x);
      forall j | 0 <= j < i
        ensures key(sorted[j]) != key(x)
      {
        SameMultisetSameElements(sorted, rows, sorted[j]);
        assert cmp(sorted[j], sorted[i]) <= 0;
      }
      assert IsFirst(sorted, key, {}, i);
    }
  }

  ghost predicate LeadsItsKey<T>(rows: seq<T>, cmp: (T, T) -> int, key: T -> (string, string), x: T) {
    x in rows && forall y :: y in rows && key(y) == key(x) ==> cmp(x, y) <= 0
  }

  lemma {:induction false} FirstIndex<T>(s: seq<T>, x: T) returns (i: nat)
    requires x in s
    ensures i < |s| && s[i] == x && forall j :: 0 <= j < i ==> s[j] != x
  {
    if s[0] == x {
      i := 0;
    } else {
      i := FirstIndex(s[1..], x);
      i := i + 1;
    }
  }

  lemma VisibleIsWellFormed(checks: seq<Check>, now: int)
    requires WellFormed(checks)
    ensures forall c, d :: (c in VisibleChecks(checks, now) && d in VisibleChecks(checks, now) &&
                            c.recordedSequence == d.recordedSequence) ==> c == d
  {
    forall c, d | c in checks && d in checks && c.recordedSequence == d.recordedSequence
      ensures c == d
    {
      SameSequenceSameCheck(checks, c, d);
    }
  }

  lemma LatestChecksMean(checks: seq<Check>, now: int, c: Check)
    requires WellFormed(checks)
    ensures c in LatestChecks(checks, now) <==> IsLatest(checks, now, c)
  {
    var visible := VisibleChecks(checks, now);
    VisibleIsWellFormed(checks, now);
    assert Linear(LatestFirst, visible) && Antisymmetric(LatestFirst, visible);
    DistinctOnSorted(visible, LatestFirst, (c: Check) => (c.checkType, c.sourceId), c);
  }

  lemma {:induction false} JoinMeans(checks: seq<Check>, sources: seq<Source>, r: Row)
    ensures r in JoinSources(checks, sources) <==>
            r.check in checks && Source(r.check.sourceId, r.evidenceKind) in sources
  {
    if checks != [] {
      JoinMeans(checks[1..], sources, r);
      assert checks == [checks[0]] + checks[1..];
      var matching := Filter(sources, (s: Source) => s.sourceId == checks[0].sourceId);
      var rows := MapSeq(matching, (s: Source) => Row(checks[0], s.evidenceKind));
      if r in rows {
        var i :| 0 <= i < |rows| && rows[i] == r;
        assert matching[i] in matching && matching[i] == Source(r.check.sourceId, r.evidenceKind);
      }
      if r.check == checks[0] && Source(r.check.sourceId, r.evidenceKind) in sources {
        var s := Source(r.check.sourceId, r.evidenceKind);
        assert s in matching;
        var i :| 0 <= i < |matching| && matching[i] == s;
        assert rows[i] == r;
      }
    }
  }

  lemma LatestRowsMean(checks: seq<Check>, p: Policy, now: int, r: Row)
    requires WellFormed(checks) && Distinct(SourceIds(p))
    ensures r in LatestRows(checks, p.sources, now) <==>
            IsLatest(checks, now, r.check) && Source(r.check.sourceId, r.evidenceKind) in p.sources
  {
    var visible := VisibleChecks(checks, now);
    var rows := JoinSources(visible, p.sources);
    VisibleIsWellFormed(checks, now);
    RowsAreOrdered(visible, p);
    DistinctOnSorted(rows, LatestRowFirst, (r: Row) => (r.check.checkType, r.check.sourceId), r);
    RowLeadsItsKey(visible, p.sources, r);
  }

  lemma RowLeadsItsKey(visible: seq<Check>, sources: seq<Source>, r: Row)
    ensures LeadsItsKey(JoinSources(visible, sources), LatestRowFirst,
                        (r: Row) => (r.check.checkType, r.check.sourceId), r)
            <==> r.check in visible && Source(r.check.sourceId, r.evidenceKind) in sources &&
                 forall c :: c in visible && SameKey(r.check, c) ==> c.recordedSequence <= r.check.recordedSequence
  {
    var rows := JoinSources(visible, sources);
    JoinMeans(visible, sources, r);
    forall c | c in visible && SameKey(c, r.check) && Source(r.check.sourceId, r.evidenceKind) in sources
      ensures Row(c, r.evidenceKind) in rows
    {
      JoinMeans(visible, sources, Row(c, r.evidenceKind));
    }
    forall s | s in rows
      ensures s.check in visible
    {
      JoinMeans(visible, sources, s);
    }
    if LeadsItsKey(rows, LatestRowFirst, (r: Row) => (r.check.checkType, r.check.sourceId), r) {
      forall c | c in visible && SameKey(r.check, c)
        ensures c.recordedSequence <= r.check.recordedSequence
      {
        assert LatestRowFirst(r, Row(c, r.evidenceKind)) <= 0;
      }
    }
  }

  lemma RowsAreOrdered(visible: seq<Check>, p: Policy)
    requires Distinct(SourceIds(p))
    requires forall c, d :: c in visible && d in visible && c.recordedSequence == d.recordedSequence ==> c == d
    ensures Linear(LatestRowFirst, JoinSources(visible, p.sources))
    ensures Antisymmetric(LatestRowFirst, JoinSources(visible, p.sources))
  {
    var rows := JoinSources(visible, p.sources);
    forall r, s | r in rows && s in rows && r.check.recordedSequence == s.check.recordedSequence
      ensures r == s
    {
      JoinMeans(visible, p.sources, r);
      JoinMeans(visible, p.sources, s);
      UniqueSource(p, Source(r.check.sourceId, r.evidenceKind), Source(s.check.sourceId, s.evidenceKind));
    }
  }

  // ---- Selection ----

  lemma FirstNewestIsNewest(rows: seq<Row>)
    ensures FirstNewest(rows).None? <==> rows == []
    ensures FirstNewest(rows).Some? ==>
              FirstNewest(rows).value in rows &&
              forall r :: r in rows ==> NoNewer(FirstNewest(rows).value.check, r.check)
  {
    if rows != [] {
      assert Linear(NewestFirst, rows);
      SortHeadIsLeast(NewestFirst, rows);
    }
  }

  ghost predicate RowsMean(checks: seq<Check>, p: Policy, now: int, q: Requirement, rows: seq<Row>) {
    && (forall r :: r in rows ==> Qualifies(checks, p, now, q, r.check))
    && (forall c :: Qualifies(checks, p, now, q, c) ==> exists r :: r in rows && r.check == c)
  }

  lemma FirstNewestIsSelected(checks: seq<Check>, p: Policy, now: int, q: Requirement, rows: seq<Row>)
    requires RowsMean(checks, p, now, q, rows)
    ensures FirstNewest(rows).Some? <==> Met(checks, p, now, q)
    ensures FirstNewest(rows).Some? ==> IsSelected(checks, p, now, q, FirstNewest(rows).value.check)
  {
    FirstNewestIsNewest(rows);
  }

  lemma DeclaredKind(p: Policy, q: Requirement, id: string) returns (kind: EvidenceKind)
    requires Coherent(p) && RequiredBy(p, q) && id in q.leg.allowedSourceIds
    ensures Source(id, kind) in p.sources
    ensures forall k :: Source(id, k) in p.sources ==> (q.authority ==> k == Authority) && !IsNonTier(k)
  {
    LegsAreAll(p);
    kind := KindFor(p, q.leg, id);
    forall k | Source(id, k) in p.sources
      ensures k == kind
    {
      UniqueSource(p, Source(id, k), Source(id, kind));
    }
  }

  lemma DocumentRowsMean(checks: seq<Check>, p: Policy, now: int, q: Requirement)
    requires WellFormed(checks) && Coherent(p) && RequiredBy(p, q) && !q.authority
    ensures RowsMean(checks, p, now, q,
                     Filter(LatestRows(checks, p.sources, now), (r: Row) => DocumentRow(q.leg, now, r)))
  {
    var latest := LatestRows(checks, p.sources, now);
    var rows := Filter(latest, (r: Row) => DocumentRow(q.leg, now, r));
    forall r | r in rows
      ensures Qualifies(checks, p, now, q, r.check)
    {
      LatestRowsMean(checks, p, now, r);
    }
    forall c | Qualifies(checks, p, now, q, c)
      ensures exists r :: r in rows && r.check == c
    {
      var kind := DeclaredKind(p, q, c.sourceId);
      LatestRowsMean(checks, p, now, Row(c, kind));
      assert Row(c, kind) in rows;
    }
  }

  lemma AuthorityRowsMean(checks: seq<Check>, p: Policy, now: int, q: Requirement)
    requires WellFormed(checks) && Coherent(p) && RequiredBy(p, q) && q.authority
    ensures RowsMean(checks, p, now, q, Filter(LatestRows(checks, p.sources, now),
                                               (r: Row) => AuthorityRow(q.leg, now, p.currentAuthorityFreshnessMs, r)))
  {
    var latest := LatestRows(checks, p.sources, now);
    var rows := Filter(latest, (r: Row) => AuthorityRow(q.leg, now, p.currentAuthorityFreshnessMs, r));
    forall r | r in rows
      ensures Qualifies(checks, p, now, q, r.check)
    {
      LatestRowsMean(checks, p, now, r);
    }
    forall c | Qualifies(checks, p, now, q, c)
      ensures exists r :: r in rows && r.check == c
    {
      var kind := DeclaredKind(p, q, c.sourceId);
      LatestRowsMean(checks, p, now, Row(c, kind));
      assert Row(c, kind) in rows;
    }
  }

  /** The row a requirement's LATERAL query returns. */
  function RowFor(checks: seq<Check>, p: Policy, now: int, q: Requirement): Option<Row> {
    var latest := LatestRows(checks, p.sources, now);
    if q.authority then AuthorityFor(latest, q.leg, now, p.currentAuthorityFreshnessMs)
    else DocumentFor(latest, q.leg, now)
  }

  lemma RowIsSelected(checks: seq<Check>, p: Policy, now: int, q: Requirement)
    requires WellFormed(checks) && Coherent(p) && RequiredBy(p, q)
    ensures RowFor(checks, p, now, q).Some? <==> Met(checks, p, now, q)
    ensures RowFor(checks, p, now, q).Some? ==> IsSelected(checks, p, now, q, RowFor(checks, p, now, q).value.check)
  {
    var latest := LatestRows(checks, p.sources, now);
    if q.authority {
      AuthorityRowsMean(checks, p, now, q);
      FirstNewestIsSelected(checks, p, now, q,
                            Filter(latest, (r: Row) => AuthorityRow(q.leg, now, p.currentAuthorityFreshnessMs, r)));
    } else {
      DocumentRowsMean(checks, p, now, q);
      FirstNewestIsSelected(checks, p, now, q, Filter(latest, (r: Row) => DocumentRow(q.leg, now, r)));
    }
  }

  function RowsFor(checks: seq<Check>, p: Policy, now: int, authority: bool): seq<Option<Row>> {
    MapSeq(LegsOf(p, authority), (leg: Leg) => RowFor(checks, p, now, Requirement(leg, authority)))
  }

  lemma RowsAreSelected(checks: seq<Check>, p: Policy, now: int, authority: bool)
    requires WellFormed(checks) && Coherent(p)
    ensures var rows := RowsFor(checks, p, now, authority);
            Coalesce(BoolAnd(Found(rows)), false) <==>
            forall leg :: leg in LegsOf(p, authority) ==> Met(checks, p, now, Requirement(leg, authority))
  {
    var legs, rows := LegsOf(p, authority), RowsFor(checks, p, now, authority);
    LegsAreAll(p);
    var found := Found(rows);
    forall i | 0 <= i < |legs|
      ensures found[i] <==> Met(checks, p, now, Requirement(legs[i], authority))
    {
      RowIsSelected(checks, p, now, Requirement(legs[i], authority));
    }
    AllLegsAllRows(checks, p, now, authority, legs, found);
  }

  lemma AllLegsAllRows(checks: seq<Check>, p: Policy, now: int, authority: bool, legs: seq<Leg>, found: seq<bool>)
    requires |found| == |legs|
    requires forall i :: 0 <= i < |legs| ==> (found[i] <==> Met(checks, p, now, Requirement(legs[i], authority)))
    ensures (forall v :: v in found ==> v) <==>
            forall leg :: leg in legs ==> Met(checks, p, now, Requirement(leg, authority))
  {
    if forall v :: v in found ==> v {
      forall leg | leg in legs
        ensures Met(checks, p, now, Requirement(leg, authority))
      {
        var i :| 0 <= i < |legs| && legs[i] == leg;
        assert found[i] in found;
      }
    }
  }

  // ---- Expiry ----

  predicate NotAfter(a: Timestamp, b: Timestamp) {
    !Earlier(b, a)
  }

  lemma {:induction false} MinMeans(values: seq<Option<Timestamp>>)
    ensures Min(values).Some? ==> Min(values) in values
    ensures forall i :: 0 <= i < |values| && values[i].Some? ==>
              Min(values).Some? && NotAfter(Min(values).value, values[i].value)
  {
    if values != [] {
      MinMeans(values[1..]);
      if Min(values[1..]).Some? {
        var i :| 0 <= i < |values[1..]| && values[1..][i] == Min(values[1..]);
        assert values[i + 1] == Min(values[1..]);
      }
      forall i | 0 <= i < |values| && values[i].Some?
        ensures Min(values).Some? && NotAfter(Min(values).value, values[i].value)
      {
        if i > 0 { assert values[1..][i - 1] == values[i]; }
      }
    }
  }

  /** The selected rows' checks. */
  function Checks(rows: seq<Option<Row>>): (r: seq<Check>)
    requires forall i :: 0 <= i < |rows| ==> rows[i].Some?
    ensures |r| == |rows| && forall i :: 0 <= i < |r| ==> r[i] == rows[i].value.check
  {
    seq(|rows|, i requires 0 <= i < |rows| => rows[i].value.check)
  }

  lemma DocumentsMin(rows: seq<Option<Row>>)
    requires forall i :: 0 <= i < |rows| ==> rows[i].Some?
    ensures var m := Coalesce(Min(Expiries(rows)), Infinity);
            && (m.At? ==> exists i :: 0 <= i < |rows| && Checks(rows)[i].validUntil == Some(m.ms))
            && (forall i :: 0 <= i < |rows| && Checks(rows)[i].validUntil.Some? ==>
                              m.At? && m.ms <= Checks(rows)[i].validUntil.value)
  {
    var values := Expiries(rows);
    MinMeans(values);
    if Min(values).Some? {
      var i :| 0 <= i < |values| && values[i] == Min(values);
      assert values[i] == RowExpiry(rows[i]) && Checks(rows)[i] == rows[i].value.check;
      if rows[i].value.check.validUntil.Some? {
        assert Checks(rows)[i].validUntil == Some(Min(values).value.ms);
      }
    }
    forall i | 0 <= i < |rows| && Checks(rows)[i].validUntil.Some?
      ensures Min(values).Some? && NotAfter(Min(values).value, At(Checks(rows)[i].validUntil.value))
    {
      assert values[i] == Some(At(Checks(rows)[i].validUntil.value));
    }
  }

  lemma AuthorityMin(rows: seq<Option<Row>>, freshness: int)
    requires rows != [] && forall i :: 0 <= i < |rows| ==> rows[i].Some?
    ensures var m := Min(AuthorityExpiries(rows, freshness));
            && m.Some? && m.value.At?
            && (exists i :: 0 <= i < |rows| && (Checks(rows)[i].validUntil == Some(m.value.ms) ||
                                                Checks(rows)[i].checkedAt + freshness == m.value.ms))
            && (forall i :: 0 <= i < |rows| ==>
                              m.value.ms <= Checks(rows)[i].checkedAt + freshness &&
                              (Checks(rows)[i].validUntil.Some? ==> m.value.ms <= Checks(rows)[i].validUntil.value))
  {
    var values := AuthorityExpiries(rows, freshness);
    MinMeans(values);
    assert forall i :: 0 <= i < |rows| ==> values[i] == AuthorityExpiry(rows[i], freshness) && values[i].Some?;
    assert values[0].Some?;
    var i :| 0 <= i < |values| && values[i] == Min(values);
    assert Checks(rows)[i] == rows[i].value.check;
  }

  /** The SQL minimum is the least bound of the selected evidence. */
  lemma FinalExpiryIsLeast(p: Policy, now: int, documents: seq<Option<Row>>, identity: Option<Row>,
                           authority: seq<Option<Row>>)
    requires identity.Some? && authority != []
    requires (forall i :: 0 <= i < |documents| ==> documents[i].Some?)
    requires forall i :: 0 <= i < |authority| ==> authority[i].Some?
    ensures var f := p.currentAuthorityFreshnessMs;
            var t := ToInstant(FinalExpiry(now, f, Min(Expiries(documents)), RowExpiry(identity),
                                           Min(AuthorityExpiries(authority, f))));
            && t.Some?
            && (t.value == now + f ||
                LapseOfParts(p, Checks(documents), identity.value.check, Checks(authority), t.value))
            && t.value <= now + f
            && (forall e :: LapseOfParts(p, Checks(documents), identity.value.check, Checks(authority), e) ==>
                  t.value <= e)
  {
    var f := p.currentAuthorityFreshnessMs;
    DocumentsMin(documents);
    AuthorityMin(authority, f);
    var d := Coalesce(Min(Expiries(documents)), Infinity);
    var i := Coalesce(RowExpiry(identity), Infinity);
    var a := Min(AuthorityExpiries(authority, f)).value;
    var t := FinalExpiry(now, f, Min(Expiries(documents)), RowExpiry(identity), Some(a));
    LeastOfFour(At(now + f), d, i, a);
  }

  lemma LeastOfFour(n: Timestamp, d: Timestamp, i: Timestamp, a: Timestamp)
    requires n.At?
    ensures var t := Least(Some(n), Least(Some(d), Least(Some(i), Some(a))));
            && t.Some? && t.value.At? && (t.value == n || t.value == d || t.value == i || t.value == a)
            && NotAfter(t.value, n) && NotAfter(t.value, d) && NotAfter(t.value, i) && NotAfter(t.value, a)
  {
  }

  ghost predicate LapseOfParts(p: Policy, documents: seq<Check>, identity: Check, authority: seq<Check>, e: int) {
    || (exists i :: 0 <= i < |documents| && documents[i].validUntil == Some(e))
    || identity.validUntil == Some(e)
    || (exists i :: 0 <= i < |authority| &&
                    (authority[i].validUntil == Some(e) || authority[i].checkedAt + p.currentAuthorityFreshnessMs == e))
  }

  lemma LapsesByPart(p: Policy, documents: seq<Check>, identity: Check, authority: seq<Check>, e: int)
    ensures LapseOf(p, documents + [identity] + authority, authority, e) <==>
            LapseOfParts(p, documents, identity, authority, e)
  {
    var selected, n := documents + [identity] + authority, |documents|;
    if i :| 0 <= i < |selected| && selected[i].validUntil == Some(e) {
      if i > n { assert selected[i] == authority[i - n - 1]; }
    }
    if i :| 0 <= i < n && documents[i].validUntil == Some(e) { assert selected[i] == documents[i]; }
    if identity.validUntil == Some(e) { assert selected[n] == identity; }
    if i :| 0 <= i < |authority| && authority[i].validUntil == Some(e) { assert selected[n + 1 + i] == authority[i]; }
  }

  // ---- The two decisions are one ----

  /** The database computes the justified decision. */
  lemma DatabaseDecisionIsJustified(checks: seq<Check>, p: Policy, now: int)
    requires WellFormed(checks) && Coherent(p)
    ensures Justified(checks, p, now, FinalizeDecision(checks, p, now))
  {
    ConflictAgrees(checks, p, now);
    RowsAreSelected(checks, p, now, false);
    RowsAreSelected(checks, p, now, true);
    var identity := Requirement(p.identityConsistencyLeg, false);
    LegsAreAll(p);
    RowIsSelected(checks, p, now, identity);
    QueriesAreRowsFor(checks, p, now);
    if !Conflicted(checks, p, now) && DocumentsMet(checks, p, now) && IdentityMet(checks, p, now) &&
       AuthorityMet(checks, p, now) {
      DatabaseExpiry(checks, p, now);
    }
  }

  lemma QueriesAreRowsFor(checks: seq<Check>, p: Policy, now: int)
    ensures var latest := LatestRows(checks, p.sources, now);
            && MapSeq(p.requiredDocumentLegs, (leg: Leg) => DocumentFor(latest, leg, now)) ==
                 RowsFor(checks, p, now, false)
            && MapSeq(p.currentAuthorityLegs,
                      (leg: Leg) => AuthorityFor(latest, leg, now, p.currentAuthorityFreshnessMs))
               == RowsFor(checks, p, now, true)
  {
  }

  lemma ConflictAgrees(checks: seq<Check>, p: Policy, now: int)
    requires WellFormed(checks)
    ensures ConflictExists(LatestChecks(checks, now), p) <==> Conflicted(checks, p, now)
  {
    if c, leg :| c in LatestChecks(checks, now) && leg in AllLegs(p) && Covers(leg, c) &&
                 (c.result == Mismatch || c.result == Conflict)
    {
      LatestChecksMean(checks, now, c);
    }
    if Conflicted(checks, p, now) {
      var c, leg :| IsLatest(checks, now, c) && (c.result == Mismatch || c.result == Conflict) &&
                    leg in AllLegs(p) && Covers(leg, c);
      LatestChecksMean(checks, now, c);
    }
  }

  lemma DatabaseExpiry(checks: seq<Check>, p: Policy, now: int)
    requires WellFormed(checks) && Coherent(p)
    requires DocumentsMet(checks, p, now) && IdentityMet(checks, p, now) && AuthorityMet(checks, p, now)
    ensures var f, identity := p.currentAuthorityFreshnessMs, Requirement(p.identityConsistencyLeg, false);
            var t := ToInstant(FinalExpiry(now, f, Min(Expiries(RowsFor(checks, p, now, false))),
                                           RowExpiry(RowFor(checks, p, now, identity)),
                                           Min(AuthorityExpiries(RowsFor(checks, p, now, true), f))));
            t.Some? && IsExpiry(checks, p, now, t.value)
  {
    var documents, authority := RowsFor(checks, p, now, false), RowsFor(checks, p, now, true);
    var q := Requirement(p.identityConsistencyLeg, false);
    RowsSelect(checks, p, now, false);
    RowsSelect(checks, p, now, true);
    LegsAreAll(p);
    RowIsSelected(checks, p, now, q);
    var identity := RowFor(checks, p, now, q);
    FinalExpiryIsLeast(p, now, documents, identity, authority);
    LapsesAreBounds(checks, p, now, Checks(documents), identity.value.check, Checks(authority));
    forall e
      ensures LapseOf(p, Checks(documents) + [identity.value.check] + Checks(authority), Checks(authority), e) <==>
              LapseOfParts(p, Checks(documents), identity.value.check, Checks(authority), e)
    {
      LapsesByPart(p, Checks(documents), identity.value.check, Checks(authority), e);
    }
  }

  lemma RowsSelect(checks: seq<Check>, p: Policy, now: int, authority: bool)
    requires WellFormed(checks) && Coherent(p)
    requires forall leg :: leg in LegsOf(p, authority) ==> Met(checks, p, now, Requirement(leg, authority))
    ensures forall i :: 0 <= i < |RowsFor(checks, p, now, authority)| ==> RowsFor(checks, p, now, authority)[i].Some?
    ensures Selects(checks, p, now, authority, Checks(RowsFor(checks, p, now, authority)))
  {
    LegsAreAll(p);
    forall i | 0 <= i < |LegsOf(p, authority)|
      ensures RowsFor(checks, p, now, authority)[i].Some?
      ensures IsSelected(checks, p, now, Requirement(LegsOf(p, authority)[i], authority),
                         RowsFor(checks, p, now, authority)[i].value.check)
    {
      RowIsSelected(checks, p, now, Requirement(LegsOf(p, authority)[i], authority));
    }
  }

  // ---- What follows for the decision the database computes, and hence for the application's ----

  /** Re-deciding before the expiry repeats the decision to the millisecond. */
  lemma DecisionIsStableUntilExpiry(checks: seq<Check>, p: Policy, now: int, t: int)
    requires WellFormed(checks) && Coherent(p) && NoLaterChecks(checks, now)
    requires FinalizeDecision(checks, p, now).tier == FullyVerified
    requires now <= t && FinalizeDecision(checks, p, now).tierExpiresAt.Some? &&
             t < FinalizeDecision(checks, p, now).tierExpiresAt.value
    ensures FinalizeDecision(checks, p, t) == FinalizeDecision(checks, p, now)
  {
    DatabaseDecisionIsJustified(checks, p, now);
    DatabaseDecisionIsJustified(checks, p, t);
    StableUntilExpiry(checks, p, now, FinalizeDecision(checks, p, now), t);
    JustifiedIsUnique(checks, p, t, FinalizeDecision(checks, p, now), FinalizeDecision(checks, p, t));
  }

  /** With one source per leg, re-deciding grants the tier exactly until the expiry. */
  lemma DecisionLapsesAtExpiry(checks: seq<Check>, p: Policy, now: int, t: int)
    requires WellFormed(checks) && Coherent(p) && SingleSourced(p) && NoLaterChecks(checks, now) && t >= now
    requires FinalizeDecision(checks, p, now).tier == FullyVerified
    ensures FinalizeDecision(checks, p, now).tierExpiresAt.Some?
    ensures FinalizeDecision(checks, p, t).tier == FullyVerified <==>
            t < FinalizeDecision(checks, p, now).tierExpiresAt.value
  {
    DatabaseDecisionIsJustified(checks, p, now);
    DatabaseDecisionIsJustified(checks, p, t);
    TightWithSingleSources(checks, p, now, FinalizeDecision(checks, p, now), t);
    if GrantedAt(checks, p, t) {
      var d :| Justified(checks, p, t, d) && d.tier == FullyVerified;
      JustifiedIsUnique(checks, p, t, d, FinalizeDecision(checks, p, t));
    }
  }

  lemma RemoveKeepsWellFormed(checks: seq<Check>, i: nat)
    requires i < |checks| && WellFormed(checks)
    ensures WellFormed(Remove(checks, i))
  {
    var rest := Remove(checks, i);
    assert forall j :: 0 <= j < |rest| ==> rest[j] == checks[if j < i then j else j + 1];
  }

  /** Removing a negligible check leaves the decision as it was. */
  lemma DecisionIgnoresNegligible(checks: seq<Check>, p: Policy, now: int, i: nat)
    requires i < |checks| && WellFormed(checks) && Coherent(p)
    requires Negligible(checks, p, now, checks[i])
    ensures FinalizeDecision(Remove(checks, i), p, now) == FinalizeDecision(checks, p, now)
  {
    RemoveKeepsWellFormed(checks, i);
    DatabaseDecisionIsJustified(checks, p, now);
    DatabaseDecisionIsJustified(Remove(checks, i), p, now);
    NonInterference(checks, p, now, i, FinalizeDecision(checks, p, now));
    JustifiedIsUnique(Remove(checks, i), p, now, FinalizeDecision(checks, p, now),
                      FinalizeDecision(Remove(checks, i), p, now));
  }
}
