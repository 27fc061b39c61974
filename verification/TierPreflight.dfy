/** The application's tier decision: `decideVerificationTier`, and the preflight
    `decideTierFromRecordedChecks` that prepares its input and computes the expiry. */
module TierPreflight {
  import opened Sequences
  import opened CredentialPolicy
  import opened TierDecision

  // ---- Latest check per leg and source ----

  function Key(c: Check): string {
    c.checkType + "\0" + c.sourceId
  }

  /** The concatenated Map key separates legs and sources because a check type holds no U+0000. */
  lemma KeyIsInjective(c: Check, d: Check)
    requires '\0' !in c.checkType && '\0' !in d.checkType
    ensures Key(c) == Key(d) <==> SameKey(c, d)
  {
    var m, n := |c.checkType|, |d.checkType|;
    assert forall k :: 0 <= k < m ==> Key(c)[k] == c.checkType[k] && Key(c)[k] != '\0';
    assert forall k :: 0 <= k < n ==> Key(d)[k] == d.checkType[k] && Key(d)[k] != '\0';
    assert Key(c)[m] == '\0' && Key(d)[n] == '\0';
    if Key(c) == Key(d) {
      assert m == n;
      assert c.checkType == Key(c)[..m] && d.checkType == Key(d)[..n];
      assert c.sourceId == Key(c)[m + 1..] && d.sourceId == Key(d)[n + 1..];
    }
  }

  function ByRecordedSequence(l: Check, r: Check): int {
    if l.recordedSequence < r.recordedSequence then -1
    else if l.recordedSequence > r.recordedSequence then 1
    else 0
  }

  ghost predicate LastOfItsKey(checks: seq<Check>, c: Check) {
    c in checks && forall d :: d in checks && SameKey(c, d) ==> d.recordedSequence <= c.recordedSequence
  }

  /** The state of the loop: each key seen so far maps to its last check, in order of first appearance. */
  ghost predicate Grouped(done: seq<Check>, order: seq<string>, latest: map<string, Check>) {
    && Distinct(order)
    && (forall k :: k in order <==> k in latest)
    && (forall k :: k in latest ==> Key(latest[k]) == k && LastOfItsKey(done, latest[k]))
    && (forall c :: c in done ==> Key(c) in latest)
  }

  /** One turn of the loop body. */
  function Group(order: seq<string>, latest: map<string, Check>, c: Check): (seq<string>, map<string, Check>) {
    if Key(c) !in latest then (order + [Key(c)], latest[Key(c) := c])
    else if c.recordedSequence > latest[Key(c)].recordedSequence then (order, latest[Key(c) := c])
    else (order, latest)
  }

  lemma GroupingStep(checks: seq<Check>, n: nat, order: seq<string>, latest: map<string, Check>)
    requires WellFormed(checks) && n < |checks| && Grouped(checks[..n], order, latest)
    ensures var (order', latest') := Group(order, latest, checks[n]); Grouped(checks[..n + 1], order', latest')
  {
    var (order', latest') := Group(order, latest, checks[n]);
    assert checks[..n + 1] == checks[..n] + [checks[n]];
    assert Distinct(order') && (forall k :: k in order' <==> k in latest') by {
      assert order' == order || (order' == order + [Key(checks[n])] && Key(checks[n]) !in order);
    }
    forall k | k in latest'
      ensures Key(latest'[k]) == k && LastOfItsKey(checks[..n + 1], latest'[k])
    {
      LastAfterStep(checks, n, order, latest, k);
    }
  }

  lemma LastAfterStep(checks: seq<Check>, n: nat, order: seq<string>, latest: map<string, Check>, k: string)
    requires WellFormed(checks) && n < |checks| && Grouped(checks[..n], order, latest)
    requires k in Group(order, latest, checks[n]).1
    ensures LastOfItsKey(checks[..n + 1], Group(order, latest, checks[n]).1[k])
  {
    var l := Group(order, latest, checks[n]).1[k];
    assert checks[..n + 1] == checks[..n] + [checks[n]];
    assert l in checks && l in checks[..n + 1];
    KeyIsInjective(checks[n], l);
    forall d | d in checks[..n + 1] && SameKey(l, d)
      ensures d.recordedSequence <= l.recordedSequence
    {
      KeyIsInjective(l, d);
      if d in checks[..n] {
        assert Key(d) in latest;
        KeyIsInjective(latest[Key(d)], d);
      }
    }
  }

  /** `latestChecksByLegAndSource`: a pass over a Map, then its values sorted by recording order. */
  method LatestChecksByLegAndSource(checks: seq<Check>) returns (r: seq<Check>)
    requires WellFormed(checks)
    ensures forall c :: c in r <==> LastOfItsKey(checks, c)
    ensures forall i, j :: 0 <= i < j < |r| ==> r[i].recordedSequence < r[j].recordedSequence
  {
    var order: seq<string>, latest: map<string, Check> := [], map[];
    for n := 0 to |checks|
      invariant Grouped(checks[..n], order, latest)
    {
      GroupingStep(checks, n, order, latest);
      var check := checks[n];
      ghost var next := Group(order, latest, check);
      if Key(check) !in latest {
        order, latest := order + [Key(check)], latest[Key(check) := check];
      } else if check.recordedSequence > latest[Key(check)].recordedSequence {
        latest := latest[Key(check) := check];
      }
      assert (order, latest) == next;
    }
    assert checks[..|checks|] == checks;
    r := SortBy(ByRecordedSequence, Values(order, latest));
    SortedValues(checks, order, latest);
  }

  lemma SortedValues(checks: seq<Check>, order: seq<string>, latest: map<string, Check>)
    requires WellFormed(checks) && Grouped(checks, order, latest)
    ensures var r := SortBy(ByRecordedSequence, Values(order, latest));
            && (forall c :: c in r <==> LastOfItsKey(checks, c))
            && (forall i, j :: 0 <= i < j < |r| ==> r[i].recordedSequence < r[j].recordedSequence)
  {
    var values := Values(order, latest);
    var r := SortBy(ByRecordedSequence, values);
    SortPermutes(ByRecordedSequence, values);
    SequenceOrderIsLinear(values);
    SortSorts(ByRecordedSequence, values);
    SortedAreDistinct(checks, order, latest, r);
    ValuesAreLatest(checks, order, latest);
    forall c
      ensures c in r <==> c in values
    {
      if c in r { SameMultisetSameElements(r, values, c); }
      if c in values { SameMultisetSameElements(values, r, c); }
    }
  }

  lemma SequenceOrderIsLinear(s: seq<Check>)
    ensures Linear(ByRecordedSequence, s)
  {
  }

  /** `[...latest.values()]`, in insertion order. */
  function Values(order: seq<string>, latest: map<string, Check>): (r: seq<Check>)
    requires forall k :: k in order ==> k in latest
    ensures |r| == |order| && forall i :: 0 <= i < |r| ==> r[i] == latest[order[i]]
  {
    seq(|order|, i requires 0 <= i < |order| => latest[order[i]])
  }

  lemma ValuesAreLatest(checks: seq<Check>, order: seq<string>, latest: map<string, Check>)
    requires WellFormed(checks) && Grouped(checks, order, latest)
    ensures forall c :: c in Values(order, latest) <==> LastOfItsKey(checks, c)
  {
    forall c | LastOfItsKey(checks, c)
      ensures c in Values(order, latest)
    {
      var l := latest[Key(c)];
      KeyIsInjective(l, c);
      SameSequenceSameCheck(checks, l, c);
      var i :| 0 <= i < |order| && order[i] == Key(c);
      assert Values(order, latest)[i] == c;
    }
  }

  lemma SortedAreDistinct(checks: seq<Check>, order: seq<string>, latest: map<string, Check>, r: seq<Check>)
    requires WellFormed(checks) && Grouped(checks, order, latest)
    requires multiset(r) == multiset(Values(order, latest)) && Sorted(ByRecordedSequence, r)
    ensures forall i, j :: 0 <= i < j < |r| ==> r[i].recordedSequence < r[j].recordedSequence
  {
    ValuesAreLatest(checks, order, latest);
    var values := Values(order, latest);
    assert Distinct(values) by {
      forall i, j | 0 <= i < j < |values|
        ensures values[i] != values[j]
      {
        assert Key(values[i]) == order[i] && Key(values[j]) == order[j];
      }
    }
    DistinctIsAMultisetProperty(values, r);
    forall i, j | 0 <= i < j < |r|
      ensures r[i].recordedSequence < r[j].recordedSequence
    {
      SameMultisetSameElements(r, values, r[i]);
      SameMultisetSameElements(r, values, r[j]);
      SequencesDiffer(checks, r[i], r[j]);
    }
  }

  lemma SequencesDiffer(checks: seq<Check>, c: Check, d: Check)
    requires WellFormed(checks) && c in checks && d in checks && c != d
    ensures c.recordedSequence != d.recordedSequence
  {
    var i :| 0 <= i < |checks| && checks[i] == c;
    var j :| 0 <= j < |checks| && checks[j] == d;
    assert if i < j then checks[i].recordedSequence != checks[j].recordedSequence
           else checks[j].recordedSequence != checks[i].recordedSequence;
  }

  lemma {:induction false} DistinctIsAMultisetProperty<T>(a: seq<T>, b: seq<T>)
    requires multiset(a) == multiset(b) && Distinct(a)
    ensures Distinct(b)
  {
    forall i, j | 0 <= i < j < |b|
      ensures b[i] != b[j]
    {
      if b[i] == b[j] {
        assert b == b[..i] + [b[i]] + b[i + 1..j] + [b[j]] + b[j + 1..];
        assert multiset(b)[b[i]] >= 2;
        DistinctCounts(a, b[i]);
      }
    }
  }

  lemma {:induction false} DistinctCounts<T>(a: seq<T>, x: T)
    requires Distinct(a)
    ensures multiset(a)[x] <= 1
  {
    if a != [] {
      DistinctCounts(a[1..], x);
      assert a == [a[0]] + a[1..];
      if x == a[0] && x in a[1..] { assert false; }
    }
  }

  // ---- decideVerificationTier ----

  datatype CredentialCheck = CredentialCheck(
    check: Check,
    isRequiredDocumentLeg: bool,
    isIdentityConsistencyLeg: bool,
    isCurrentAuthorityLeg: bool,
    isFormatOnly: bool,
    isLlmDerived: bool
  )

  predicate Contributing(d: CredentialCheck, now: int) {
    && d.check.result == Pass && d.check.sourceMode == Live
    && !d.isFormatOnly && !d.isLlmDerived
    && d.check.checkedAt <= now && Unexpired(d.check, now)
  }

  /** `input.checks.filter(...)`, the filter both tier.ts and the preflight apply. */
  function ContributingChecks(checks: seq<CredentialCheck>, now: int): seq<CredentialCheck> {
    Filter(checks, (d: CredentialCheck) => Contributing(d, now))
  }

  function PassedLegs(contributing: seq<CredentialCheck>): set<string> {
    set d | d in contributing && d.isRequiredDocumentLeg :: d.check.checkType
  }

  function CurrentLegs(contributing: seq<CredentialCheck>, now: int, freshnessMs: Option<int>): set<string> {
    set d | d in contributing && d.isCurrentAuthorityLeg &&
            freshnessMs.Some? && d.check.checkedAt > now - freshnessMs.value :: d.check.checkType
  }

  predicate Every(legs: seq<string>, passed: set<string>) {
    forall leg :: leg in legs ==> leg in passed
  }

  datatype TierOutcome = TierOutcome(tier: Tier, reasons: seq<Reason>)

  function DecideVerificationTier(now: int, checks: seq<CredentialCheck>, requiredDocumentLegs: seq<string>,
                                  requiredCurrentAuthorityLegs: seq<string>, freshnessMs: Option<int>): TierOutcome
  {
    var contributing := ContributingChecks(checks, now);
    if !Every(requiredDocumentLegs, PassedLegs(contributing)) then
      TierOutcome(SelfDeclared, [RequiredEvidenceIncomplete])
    else if !exists d :: d in contributing && d.isIdentityConsistencyLeg then
      TierOutcome(SelfDeclared, [IdentityConsistencyRequired])
    else if !Every(requiredCurrentAuthorityLegs, CurrentLegs(contributing, now, freshnessMs)) then
      TierOutcome(DocumentVerified, [CurrentLiveAuthorityRequired])
    else
      TierOutcome(FullyVerified, [CurrentLiveAuthorityConfirmed])
  }

  // ---- Preparing its input ----

  /** `new Map(legs.map((leg) => [leg.checkType, new Set(leg.allowedSourceIds)]))` */
  function LegMap(legs: seq<Leg>): map<string, set<string>> {
    if legs == [] then map[]
    else
      var last := legs[|legs| - 1];
      LegMap(legs[..|legs| - 1])[last.checkType := set id | id in last.allowedSourceIds]
  }

  predicate MapAllows(legs: map<string, set<string>>, c: Check) {
    c.checkType in legs && c.sourceId in legs[c.checkType]
  }

  lemma {:induction false} LegMapMeans(legs: seq<Leg>, c: Check)
    requires Distinct(CheckTypes(legs))
    ensures MapAllows(LegMap(legs), c) <==> exists leg :: leg in legs && Covers(leg, c)
    ensures c.checkType in LegMap(legs) ==> c.checkType in CheckTypes(legs)
  {
    if legs != [] {
      var n := |legs| - 1;
      var front, last := legs[..n], legs[n];
      assert legs == front + [last];
      assert forall i :: 0 <= i < n ==> CheckTypes(front)[i] == CheckTypes(legs)[i];
      LegMapMeans(front, c);
      assert CheckTypes(legs)[n] == last.checkType;
      if c.checkType == last.checkType {
        forall leg | leg in legs && Covers(leg, c)
          ensures leg == last
        {
          UniqueLeg(legs, leg, last);
        }
        assert MapAllows(LegMap(legs), c) <==> Covers(last, c);
      } else {
        assert forall leg :: leg in legs && Covers(leg, c) ==> leg in front;
      }
    }
  }

  function DomainCheck(p: Policy, c: Check): CredentialCheck {
    var sources := SourceMap(p.sources);
    var declared := c.sourceId in sources;
    CredentialCheck(
      c,
      declared && MapAllows(LegMap(p.requiredDocumentLegs), c),
      declared && c.checkType == p.identityConsistencyLeg.checkType &&
      c.sourceId in p.identityConsistencyLeg.allowedSourceIds,
      declared && sources[c.sourceId].evidenceKind == Authority && MapAllows(LegMap(p.currentAuthorityLegs), c),
      !declared || sources[c.sourceId].evidenceKind == FormatValidation,
      declared && sources[c.sourceId].evidenceKind == LlmAdvisory
    )
  }

  /** Under an accepted policy each flag says exactly that a leg of that use covers the check, and a covered
      check is neither format-only nor derived by a language model. */
  lemma FlagsMean(p: Policy, c: Check)
    requires Accepted(p)
    ensures DomainCheck(p, c).isRequiredDocumentLeg <==> exists leg :: leg in p.requiredDocumentLegs && Covers(leg, c)
    ensures DomainCheck(p, c).isIdentityConsistencyLeg <==> Covers(p.identityConsistencyLeg, c)
    ensures DomainCheck(p, c).isCurrentAuthorityLeg <==> exists leg :: leg in p.currentAuthorityLegs && Covers(leg, c)
    ensures (exists leg :: leg in AllLegs(p) && Covers(leg, c)) ==>
              !DomainCheck(p, c).isFormatOnly && !DomainCheck(p, c).isLlmDerived
  {
    AcceptedMeans(p);
    LegMapMeans(p.requiredDocumentLegs, c);
    LegMapMeans(p.currentAuthorityLegs, c);
    forall leg | leg in AllLegs(p) && Covers(leg, c)
      ensures c.sourceId in SourceMap(p.sources) && !IsNonTier(SourceMap(p.sources)[c.sourceId].evidenceKind)
    {
      assert leg in DocumentLegs(p) || leg in p.currentAuthorityLegs;
    }
    LegsAreAll(p);
  }

  // ---- Newest evidence ----

  function NewestFirst(l: CredentialCheck, r: CredentialCheck): int {
    if r.check.checkedAt != l.check.checkedAt then r.check.checkedAt - l.check.checkedAt
    else if r.check.recordedSequence > l.check.recordedSequence then 1
    else -1
  }

  function Newest(candidates: seq<CredentialCheck>): Option<CredentialCheck> {
    var sorted := SortBy(NewestFirst, candidates);
    if sorted == [] then None else Some(sorted[0])
  }

  lemma NewestIsNewest(candidates: seq<CredentialCheck>)
    ensures Newest(candidates).None? <==> candidates == []
    ensures Newest(candidates).Some? ==>
              Newest(candidates).value in candidates &&
              forall d :: d in candidates ==> NoNewer(Newest(candidates).value.check, d.check)
  {
    if candidates != [] {
      assert Linear(NewestFirst, candidates);
      SortHeadIsLeast(NewestFirst, candidates);
    }
  }

  /** What the preflight can raise. The last two are internal consistency errors. */
  datatype PreflightError =
    | InvalidPolicy(error: PolicyError)
    | ProviderTypeMismatch
    | MissingSelectedEvidence
    | NoFutureExpiry

  function CandidatesFor(p: Policy, now: int, q: Requirement,
                         contributing: seq<CredentialCheck>): seq<CredentialCheck>
  {
    Filter(contributing, (d: CredentialCheck) =>
             if q.authority then
               d.check.checkType == q.leg.checkType && d.isCurrentAuthorityLeg &&
               d.check.checkedAt + p.currentAuthorityFreshnessMs > now
             else
               d.check.checkType == q.leg.checkType && d.isRequiredDocumentLeg)
  }

  function IdentityCandidates(contributing: seq<CredentialCheck>): seq<CredentialCheck> {
    Filter(contributing, (d: CredentialCheck) => d.isIdentityConsistencyLeg)
  }

  /** The domain checks derived from the latest checks, as the preflight holds them. */
  ghost predicate Prepared(checks: seq<Check>, p: Policy, now: int, domain: seq<CredentialCheck>) {
    && (forall d :: d in domain ==> IsLatest(checks, now, d.check) && d == DomainCheck(p, d.check))
    && (forall c :: IsLatest(checks, now, c) ==> DomainCheck(p, c) in domain)
  }

  ghost predicate CandidatesMean(checks: seq<Check>, p: Policy, now: int, q: Requirement,
                                 candidates: seq<CredentialCheck>)
  {
    && (forall d :: d in candidates ==> Qualifies(checks, p, now, q, d.check) && d == DomainCheck(p, d.check))
    && (forall c :: Qualifies(checks, p, now, q, c) ==> DomainCheck(p, c) in candidates)
  }

  lemma CandidatesAreEvidence(checks: seq<Check>, p: Policy, now: int, domain: seq<CredentialCheck>, q: Requirement)
    requires Accepted(p) && Prepared(checks, p, now, domain)
    requires q.leg in (if q.authority then p.currentAuthorityLegs else p.requiredDocumentLegs)
    ensures CandidatesMean(checks, p, now, q, CandidatesFor(p, now, q, ContributingChecks(domain, now)))
  {
    var contributing := ContributingChecks(domain, now);
    var legs := if q.authority then p.currentAuthorityLegs else p.requiredDocumentLegs;
    AcceptedMeans(p);
    forall d | d in CandidatesFor(p, now, q, contributing)
      ensures Qualifies(checks, p, now, q, d.check)
    {
      FlagsMean(p, d.check);
      var leg :| leg in legs && Covers(leg, d.check);
      UniqueLeg(legs, leg, q.leg);
    }
    forall c | Qualifies(checks, p, now, q, c)
      ensures DomainCheck(p, c) in CandidatesFor(p, now, q, contributing)
    {
      assert q.leg in AllLegs(p);
      FlagsMean(p, c);
    }
  }

  lemma IdentityCandidatesAreEvidence(checks: seq<Check>, p: Policy, now: int, domain: seq<CredentialCheck>)
    requires Accepted(p) && Prepared(checks, p, now, domain)
    ensures CandidatesMean(checks, p, now, Requirement(p.identityConsistencyLeg, false),
                           IdentityCandidates(ContributingChecks(domain, now)))
  {
    var contributing := ContributingChecks(domain, now);
    var q := Requirement(p.identityConsistencyLeg, false);
    forall d | d in IdentityCandidates(contributing)
      ensures Qualifies(checks, p, now, q, d.check)
    {
      FlagsMean(p, d.check);
    }
    forall c | Qualifies(checks, p, now, q, c)
      ensures DomainCheck(p, c) in IdentityCandidates(contributing)
    {
      assert AllLegs(p)[|p.requiredDocumentLegs|] == q.leg;
      FlagsMean(p, c);
    }
  }

  lemma NewestIsSelected(checks: seq<Check>, p: Policy, now: int, q: Requirement, candidates: seq<CredentialCheck>)
    requires CandidatesMean(checks, p, now, q, candidates)
    ensures Newest(candidates).Some? <==> Met(checks, p, now, q)
    ensures Newest(candidates).Some? ==> IsSelected(checks, p, now, q, Newest(candidates).value.check)
  {
    NewestIsNewest(candidates);
    if Newest(candidates).Some? {
      var n := Newest(candidates).value;
      forall c | Qualifies(checks, p, now, q, c)
        ensures NoNewer(n.check, c)
      {
        assert DomainCheck(p, c).check == c;
      }
    } else {
      forall c
        ensures !Qualifies(checks, p, now, q, c)
      {
        assert Qualifies(checks, p, now, q, c) ==> DomainCheck(p, c) in candidates;
      }
    }
  }

  /** `decideVerificationTier` tells the four outcomes apart exactly as the evidence does. */
  lemma TierFollowsEvidence(checks: seq<Check>, p: Policy, now: int, domain: seq<CredentialCheck>)
    requires Accepted(p) && Prepared(checks, p, now, domain)
    ensures Decided(p, now, domain) ==
            if !DocumentsMet(checks, p, now) then TierOutcome(SelfDeclared, [RequiredEvidenceIncomplete])
            else if !IdentityMet(checks, p, now) then TierOutcome(SelfDeclared, [IdentityConsistencyRequired])
            else if !AuthorityMet(checks, p, now) then TierOutcome(DocumentVerified, [CurrentLiveAuthorityRequired])
            else TierOutcome(FullyVerified, [CurrentLiveAuthorityConfirmed])
  {
    DocumentsAgree(checks, p, now, domain);
    IdentityAgrees(checks, p, now, domain);
    AuthorityAgrees(checks, p, now, domain);
  }

  lemma DocumentsAgree(checks: seq<Check>, p: Policy, now: int, domain: seq<CredentialCheck>)
    requires Accepted(p) && Prepared(checks, p, now, domain)
    ensures DocumentsMet(checks, p, now) <==>
            Every(CheckTypes(p.requiredDocumentLegs), PassedLegs(ContributingChecks(domain, now)))
  {
    var legs := p.requiredDocumentLegs;
    forall leg | leg in legs
      ensures leg.checkType in CheckTypes(legs)
      ensures Met(checks, p, now, Requirement(leg, false)) <==>
              leg.checkType in PassedLegs(ContributingChecks(domain, now))
    {
      CheckTypeIsListed(legs, leg.checkType);
      DocumentLegPassed(checks, p, now, domain, leg);
    }
    forall t | t in CheckTypes(legs)
      ensures exists leg :: leg in legs && leg.checkType == t
    {
      CheckTypeIsListed(legs, t);
    }
  }

  lemma DocumentLegPassed(checks: seq<Check>, p: Policy, now: int, domain: seq<CredentialCheck>, leg: Leg)
    requires Accepted(p) && Prepared(checks, p, now, domain) && leg in p.requiredDocumentLegs
    ensures Met(checks, p, now, Requirement(leg, false)) <==>
            leg.checkType in PassedLegs(ContributingChecks(domain, now))
  {
    var candidates := CandidatesFor(p, now, Requirement(leg, false), ContributingChecks(domain, now));
    LegIsMet(checks, p, now, domain, Requirement(leg, false));
    if candidates != [] { assert candidates[0] in candidates; }
    if leg.checkType in PassedLegs(ContributingChecks(domain, now)) {
      var d :| d in ContributingChecks(domain, now) && d.isRequiredDocumentLeg && d.check.checkType == leg.checkType;
      assert d in candidates;
    }
  }

  lemma AuthorityAgrees(checks: seq<Check>, p: Policy, now: int, domain: seq<CredentialCheck>)
    requires Accepted(p) && Prepared(checks, p, now, domain)
    ensures AuthorityMet(checks, p, now) <==>
            Every(CheckTypes(p.currentAuthorityLegs),
                  CurrentLegs(ContributingChecks(domain, now), now, Some(p.currentAuthorityFreshnessMs)))
  {
    var legs := p.currentAuthorityLegs;
    var current := CurrentLegs(ContributingChecks(domain, now), now, Some(p.currentAuthorityFreshnessMs));
    forall leg | leg in legs
      ensures leg.checkType in CheckTypes(legs)
      ensures Met(checks, p, now, Requirement(leg, true)) <==> leg.checkType in current
    {
      CheckTypeIsListed(legs, leg.checkType);
      AuthorityLegCurrent(checks, p, now, domain, leg);
    }
    forall t | t in CheckTypes(legs)
      ensures exists leg :: leg in legs && leg.checkType == t
    {
      CheckTypeIsListed(legs, t);
    }
  }

  lemma AuthorityLegCurrent(checks: seq<Check>, p: Policy, now: int, domain: seq<CredentialCheck>, leg: Leg)
    requires Accepted(p) && Prepared(checks, p, now, domain) && leg in p.currentAuthorityLegs
    ensures Met(checks, p, now, Requirement(leg, true)) <==>
            leg.checkType in CurrentLegs(ContributingChecks(domain, now), now, Some(p.currentAuthorityFreshnessMs))
  {
    var f := Some(p.currentAuthorityFreshnessMs);
    var candidates := CandidatesFor(p, now, Requirement(leg, true), ContributingChecks(domain, now));
    LegIsMet(checks, p, now, domain, Requirement(leg, true));
    if candidates != [] { assert candidates[0] in candidates; }
    if leg.checkType in CurrentLegs(ContributingChecks(domain, now), now, f) {
      var d :| d in ContributingChecks(domain, now) && d.isCurrentAuthorityLeg &&
               d.check.checkedAt > now - f.value && d.check.checkType == leg.checkType;
      assert d in candidates;
    }
  }

  lemma IdentityAgrees(checks: seq<Check>, p: Policy, now: int, domain: seq<CredentialCheck>)
    requires Accepted(p) && Prepared(checks, p, now, domain)
    ensures IdentityMet(checks, p, now) <==>
            exists d :: d in ContributingChecks(domain, now) && d.isIdentityConsistencyLeg
  {
    var contributing := ContributingChecks(domain, now);
    var q := Requirement(p.identityConsistencyLeg, false);
    IdentityCandidatesAreEvidence(checks, p, now, domain);
    if c :| Qualifies(checks, p, now, q, c) {
      assert DomainCheck(p, c) in IdentityCandidates(contributing);
    }
    if d :| d in contributing && d.isIdentityConsistencyLeg {
      assert d in IdentityCandidates(contributing);
    }
  }

  lemma LegIsMet(checks: seq<Check>, p: Policy, now: int, domain: seq<CredentialCheck>, q: Requirement)
    requires Accepted(p) && Prepared(checks, p, now, domain)
    requires q.leg in (if q.authority then p.currentAuthorityLegs else p.requiredDocumentLegs)
    ensures Met(checks, p, now, q) <==>
            CandidatesFor(p, now, q, ContributingChecks(domain, now)) != []
  {
    CandidatesAreEvidence(checks, p, now, domain, q);
    var candidates := CandidatesFor(p, now, q, ContributingChecks(domain, now));
    if c :| Qualifies(checks, p, now, q, c) { assert DomainCheck(p, c) in candidates; }
    if candidates != [] { assert candidates[0] in candidates; }
  }

  function Decided(p: Policy, now: int, domain: seq<CredentialCheck>): TierOutcome {
    DecideVerificationTier(now, domain, CheckTypes(p.requiredDocumentLegs), CheckTypes(p.currentAuthorityLegs),
                           Some(p.currentAuthorityFreshnessMs))
  }

  // ---- The preflight ----

  predicate IsConflict(c: Check) {
    c.result == Mismatch || c.result == Conflict
  }

  /** relevantSourcesByLeg: for each check type the union of the sources its legs allow. */
  method RelevantSourcesByLeg(legs: seq<Leg>) returns (relevant: map<string, set<string>>)
    ensures forall c: Check :: MapAllows(relevant, c) <==> exists leg :: leg in legs && Covers(leg, c)
  {
    relevant := map[];
    for n := 0 to |legs|
      invariant forall c: Check :: MapAllows(relevant, c) <==> exists leg :: leg in legs[..n] && Covers(leg, c)
    {
      var leg := legs[n];
      ghost var before := relevant;
      var sourcesForLeg: set<string> := if leg.checkType in relevant then relevant[leg.checkType] else {};
      for i := 0 to |leg.allowedSourceIds|
        invariant sourcesForLeg ==
                  (if leg.checkType in before then before[leg.checkType] else {}) +
                  (set id | id in leg.allowedSourceIds[..i])
      {
        sourcesForLeg := sourcesForLeg + {leg.allowedSourceIds[i]};
      }
      relevant := relevant[leg.checkType := sourcesForLeg];
      assert leg.allowedSourceIds[..|leg.allowedSourceIds|] == leg.allowedSourceIds;
      assert legs[..n + 1] == legs[..n] + [leg];
      assert forall c: Check :: MapAllows(relevant, c) <==> MapAllows(before, c) || Covers(leg, c);
    }
    assert legs[..|legs|] == legs;
  }

  function Recorded(evidence: seq<CredentialCheck>): seq<Check> {
    MapSeq(evidence, (d: CredentialCheck) => d.check)
  }

  /** The two loops over the selected evidence, and the minimum. */
  method ExpiryOf(p: Policy, now: int, selected: seq<CredentialCheck>, authority: seq<CredentialCheck>)
      returns (least: int)
    ensures least == now + p.currentAuthorityFreshnessMs || LapseOf(p, Recorded(selected), Recorded(authority), least)
    ensures least <= now + p.currentAuthorityFreshnessMs
    ensures forall e :: LapseOf(p, Recorded(selected), Recorded(authority), e) ==> least <= e
  {
    var candidates := [now + p.currentAuthorityFreshnessMs];
    ghost var sel, auth := Recorded(selected), Recorded(authority);
    for n := 0 to |selected|
      invariant candidates != [] && candidates[0] == now + p.currentAuthorityFreshnessMs
      invariant forall e :: e in candidates[1..] <==> exists i :: 0 <= i < n && sel[i].validUntil == Some(e)
    {
      ghost var before := candidates;
      if selected[n].check.validUntil.Some? {
        candidates := candidates + [selected[n].check.validUntil.value];
        assert candidates[1..] == before[1..] + [sel[n].validUntil.value];
      }
    }
    for n := 0 to |authority|
      invariant candidates != [] && candidates[0] == now + p.currentAuthorityFreshnessMs
      invariant forall e :: e in candidates[1..] <==>
                            (exists i :: 0 <= i < |sel| && sel[i].validUntil == Some(e)) ||
                            (exists i :: 0 <= i < n && auth[i].checkedAt + p.currentAuthorityFreshnessMs == e)
    {
      ghost var before := candidates;
      candidates := candidates + [authority[n].check.checkedAt + p.currentAuthorityFreshnessMs];
      assert candidates[1..] == before[1..] + [auth[n].checkedAt + p.currentAuthorityFreshnessMs];
    }
    least := MinOf(candidates);
    assert candidates == [candidates[0]] + candidates[1..];
    assert forall e :: LapseOf(p, sel, auth, e) ==> e in candidates[1..];
  }

  /** `Math.min(...values)` */
  function MinOf(values: seq<int>): (m: int)
    requires values != []
    ensures m in values && forall v :: v in values ==> m <= v
  {
    if |values| == 1 then values[0]
    else
      var rest := MinOf(values[1..]);
      assert values == [values[0]] + values[1..];
      if values[0] <= rest then values[0] else rest
  }

  function SelectFor(p: Policy, now: int, legs: seq<Leg>, authority: bool, contributing: seq<CredentialCheck>)
    : seq<Option<CredentialCheck>>
  {
    MapSeq(legs, (leg: Leg) => Newest(CandidatesFor(p, now, Requirement(leg, authority), contributing)))
  }

  /** `.filter((check) => check !== undefined)` */
  function Present(found: seq<Option<CredentialCheck>>): seq<CredentialCheck> {
    if found == [] then []
    else (if found[0].Some? then [found[0].value] else []) + Present(found[1..])
  }

  lemma {:induction false} PresentKeepsAll(found: seq<Option<CredentialCheck>>)
    requires forall i :: 0 <= i < |found| ==> found[i].Some?
    ensures |Present(found)| == |found|
    ensures forall i :: 0 <= i < |found| ==> Present(found)[i] == found[i].value
  {
    if found != [] { PresentKeepsAll(found[1..]); }
  }

  /** `decideTierFromRecordedChecks`. It fails only on a policy it must refuse: neither internal error can be
      raised, and what it returns is the justified decision. */
  method DecideTierFromRecordedChecks(providerType: string, checks: seq<Check>, policy: Policy, now: int)
      returns (r: Result<Decision, PreflightError>)
    requires WellFormed(checks)
    ensures !Accepted(policy) ==> r.Err? && r.error.InvalidPolicy?
    ensures Accepted(policy) && providerType != policy.providerType ==> r == Err(ProviderTypeMismatch)
    ensures Accepted(policy) && providerType == policy.providerType ==> r.Ok? && Justified(checks, policy, now, r.value)
  {
    var valid := ValidateCredentialTierPolicy(policy);
    if valid.Err? { return Err(InvalidPolicy(valid.error)); }
    if providerType != policy.providerType { return Err(ProviderTypeMismatch); }

    var visible := Filter(checks, (c: Check) => Visible(c, now));
    FilterKeepsWellFormed(checks, (c: Check) => Visible(c, now));
    var latestChecks := LatestChecksByLegAndSource(visible);
    assert LatestAre(checks, now, latestChecks);

    var relevant := RelevantSourcesByLeg(AllLegs(policy));
    ConflictAgrees(checks, policy, now, latestChecks, relevant);
    if exists c :: c in latestChecks && IsConflict(c) && Visible(c, now) && MapAllows(relevant, c) {
      return Ok(Decision(SelfDeclared, [UnresolvedCredentialConflict], None));
    }

    var domainChecks := MapSeq(latestChecks, (c: Check) => DomainCheck(policy, c));
    DomainIsPrepared(checks, policy, now, latestChecks, domainChecks);
    var decision := Decided(policy, now, domainChecks);
    TierFollowsEvidence(checks, policy, now, domainChecks);
    if decision.tier != FullyVerified { return Ok(Decision(decision.tier, decision.reasons, None)); }

    var expiry := TierExpiry(checks, policy, now, domainChecks);
    match expiry {
      case Err(error) => return Err(error);
      case Ok(tierExpiresAt) => return Ok(Decision(decision.tier, decision.reasons, Some(tierExpiresAt)));
    }
  }

  /** The rest of the preflight: select the evidence and take the earliest instant any of it lapses. */
  method TierExpiry(ghost checks: seq<Check>, policy: Policy, now: int, domainChecks: seq<CredentialCheck>)
      returns (r: Result<int, PreflightError>)
    requires WellFormed(checks) && Accepted(policy) && Prepared(checks, policy, now, domainChecks)
    requires DocumentsMet(checks, policy, now) && IdentityMet(checks, policy, now) && AuthorityMet(checks, policy, now)
    ensures r.Ok? && IsExpiry(checks, policy, now, r.value)
  {
    var contributing := ContributingChecks(domainChecks, now);
    var requiredEvidence := SelectFor(policy, now, policy.requiredDocumentLegs, false, contributing);
    var identityEvidence := Newest(IdentityCandidates(contributing));
    var authorityEvidence := SelectFor(policy, now, policy.currentAuthorityLegs, true, contributing);
    EvidenceBounds(checks, policy, now, domainChecks);
    if None in requiredEvidence || identityEvidence == None || None in authorityEvidence {
      return Err(MissingSelectedEvidence);
    }
    var documents, authority := Present(requiredEvidence), Present(authorityEvidence);
    var tierExpiresAt := ExpiryOf(policy, now, documents + [identityEvidence.value] + authority, authority);
    ExpiryIsInTheFutureOf(checks, policy, now, tierExpiresAt);
    if tierExpiresAt <= now { return Err(NoFutureExpiry); }
    return Ok(tierExpiresAt);
  }

  /** All evidence is present, and the instants its loops push are the bounds of the decision. */
  lemma EvidenceBounds(checks: seq<Check>, p: Policy, now: int, domain: seq<CredentialCheck>)
    requires WellFormed(checks) && Accepted(p) && Prepared(checks, p, now, domain)
    requires DocumentsMet(checks, p, now) && IdentityMet(checks, p, now) && AuthorityMet(checks, p, now)
    ensures var contributing := ContributingChecks(domain, now);
            var required := SelectFor(p, now, p.requiredDocumentLegs, false, contributing);
            var identity := Newest(IdentityCandidates(contributing));
            var authority := SelectFor(p, now, p.currentAuthorityLegs, true, contributing);
            && None !in required && identity.Some? && None !in authority
            && forall e :: IsBound(checks, p, now, e) <==>
                           e == now + p.currentAuthorityFreshnessMs ||
                           LapseOf(p, Recorded(Present(required) + [identity.value] + Present(authority)),
                                   Recorded(Present(authority)), e)
  {
    var contributing := ContributingChecks(domain, now);
    var required := SelectFor(p, now, p.requiredDocumentLegs, false, contributing);
    var identity := Newest(IdentityCandidates(contributing));
    var authority := SelectFor(p, now, p.currentAuthorityLegs, true, contributing);
    SelectForSelects(checks, p, now, domain, false);
    IdentityIsSelected(checks, p, now, domain);
    SelectForSelects(checks, p, now, domain, true);
    RecordedConcat(Present(required), identity.value, Present(authority));
    LapsesAreBounds(checks, p, now, Recorded(Present(required)), identity.value.check, Recorded(Present(authority)));
  }

  lemma RecordedConcat(a: seq<CredentialCheck>, d: CredentialCheck, b: seq<CredentialCheck>)
    ensures Recorded(a + [d] + b) == Recorded(a) + [d.check] + Recorded(b)
  {
  }

  lemma ExpiryIsInTheFutureOf(checks: seq<Check>, p: Policy, now: int, e: int)
    requires Accepted(p) && IsExpiry(checks, p, now, e)
    ensures now < e
  {
    AcceptedIsCoherent(p);
  }

  lemma {:induction false} FilterKeepsWellFormed(checks: seq<Check>, keep: Check -> bool)
    requires WellFormed(checks)
    ensures WellFormed(Filter(checks, keep))
  {
    if checks != [] {
      var rest := Filter(checks[1..], keep);
      FilterKeepsWellFormed(checks[1..], keep);
      forall j | 0 <= j < |rest|
        ensures rest[j].recordedSequence != checks[0].recordedSequence
      {
        assert rest[j] in checks[1..];
        var k :| 0 <= k < |checks[1..]| && checks[1..][k] == rest[j];
        assert checks[k + 1] == rest[j];
      }
    }
  }

  lemma ConflictAgrees(checks: seq<Check>, p: Policy, now: int, latest: seq<Check>, relevant: map<string, set<string>>)
    requires LatestAre(checks, now, latest)
    requires forall c: Check :: MapAllows(relevant, c) <==> exists leg :: leg in AllLegs(p) && Covers(leg, c)
    ensures (exists c :: c in latest && IsConflict(c) && Visible(c, now) && MapAllows(relevant, c)) <==>
            Conflicted(checks, p, now)
  {
    if c :| c in latest && IsConflict(c) && MapAllows(relevant, c) {
      assert IsLatest(checks, now, c);
    }
    if Conflicted(checks, p, now) {
      var c, leg :| IsLatest(checks, now, c) && IsConflict(c) && leg in AllLegs(p) && Covers(leg, c);
      assert c in latest && MapAllows(relevant, c);
    }
  }

  ghost predicate LatestAre(checks: seq<Check>, now: int, latest: seq<Check>) {
    forall c :: c in latest <==> IsLatest(checks, now, c)
  }

  lemma DomainIsPrepared(checks: seq<Check>, p: Policy, now: int, latest: seq<Check>, domain: seq<CredentialCheck>)
    requires LatestAre(checks, now, latest)
    requires |domain| == |latest| && forall i :: 0 <= i < |latest| ==> domain[i] == DomainCheck(p, latest[i])
    ensures Prepared(checks, p, now, domain)
  {
    forall d | d in domain
      ensures IsLatest(checks, now, d.check) && d == DomainCheck(p, d.check)
    {
      var i :| 0 <= i < |domain| && domain[i] == d;
      assert latest[i] in latest;
    }
    forall c | IsLatest(checks, now, c)
      ensures DomainCheck(p, c) in domain
    {
      assert c in latest;
      var i :| 0 <= i < |latest| && latest[i] == c;
      assert domain[i] == DomainCheck(p, c);
    }
  }

  /** One requirement's selection: what `newest` returned is the evidence the specification selects. */
  lemma LegIsSelected(checks: seq<Check>, p: Policy, now: int, domain: seq<CredentialCheck>, q: Requirement)
    requires Accepted(p) && Prepared(checks, p, now, domain)
    requires q.leg in (if q.authority then p.currentAuthorityLegs else p.requiredDocumentLegs)
    ensures var n := Newest(CandidatesFor(p, now, q, ContributingChecks(domain, now)));
            (n.Some? <==> Met(checks, p, now, q)) && (n.Some? ==> IsSelected(checks, p, now, q, n.value.check))
  {
    CandidatesAreEvidence(checks, p, now, domain, q);
    NewestIsSelected(checks, p, now, q, CandidatesFor(p, now, q, ContributingChecks(domain, now)));
  }

  lemma IdentityIsSelected(checks: seq<Check>, p: Policy, now: int, domain: seq<CredentialCheck>)
    requires Accepted(p) && Prepared(checks, p, now, domain)
    ensures var n := Newest(IdentityCandidates(ContributingChecks(domain, now)));
            var q := Requirement(p.identityConsistencyLeg, false);
            (n.Some? <==> Met(checks, p, now, q)) && (n.Some? ==> IsSelected(checks, p, now, q, n.value.check))
  {
    IdentityCandidatesAreEvidence(checks, p, now, domain);
    NewestIsSelected(checks, p, now, Requirement(p.identityConsistencyLeg, false),
                     IdentityCandidates(ContributingChecks(domain, now)));
  }

  lemma SelectForSelects(checks: seq<Check>, p: Policy, now: int, domain: seq<CredentialCheck>, authority: bool)
    requires Accepted(p) && Prepared(checks, p, now, domain)
    requires forall leg :: leg in LegsOf(p, authority) ==> Met(checks, p, now, Requirement(leg, authority))
    ensures None !in SelectFor(p, now, LegsOf(p, authority), authority, ContributingChecks(domain, now))
    ensures Selects(checks, p, now, authority,
                    Recorded(Present(SelectFor(p, now, LegsOf(p, authority), authority,
                                               ContributingChecks(domain, now)))))
  {
    var legs, contributing := LegsOf(p, authority), ContributingChecks(domain, now);
    var found := SelectFor(p, now, legs, authority, contributing);
    forall i | 0 <= i < |legs|
      ensures found[i].Some? && IsSelected(checks, p, now, Requirement(legs[i], authority), found[i].value.check)
    {
      LegIsSelected(checks, p, now, domain, Requirement(legs[i], authority));
    }
    PresentKeepsAll(found);
  }
}
