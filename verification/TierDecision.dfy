/** Recorded credential checks and what it means for a tier decision to be the right one for them.
    `Justified` names no algorithm: the application's preflight and the database's queries are each
    proved to compute it, and it admits exactly one decision. */
module TierDecision {
  import opened Sequences
  import opened CredentialPolicy

  datatype SourceMode = Live | Mock | Off

  datatype CheckResult = Pass | Mismatch | NotFound | Conflict | Unavailable

  datatype Check = Check(
    recordedSequence: int,
    checkType: string,
    sourceId: string,
    sourceMode: SourceMode,
    result: CheckResult,
    checkedAt: int,
    validUntil: Option<int>
  )

  datatype Tier = SelfDeclared | DocumentVerified | FullyVerified

  datatype Reason =
    | UnresolvedCredentialConflict
    | RequiredEvidenceIncomplete
    | IdentityConsistencyRequired
    | CurrentLiveAuthorityRequired
    | CurrentLiveAuthorityConfirmed

  datatype Decision = Decision(tier: Tier, reasons: seq<Reason>, tierExpiresAt: Option<int>)

  /** What the verification_check table guarantees: `recorded_sequence` is an identity column with a
      UNIQUE constraint, and no text value contains U+0000. */
  ghost predicate WellFormed(checks: seq<Check>) {
    && (forall i, j :: 0 <= i < j < |checks| ==> checks[i].recordedSequence != checks[j].recordedSequence)
    && (forall c :: c in checks ==> '\0' !in c.checkType)
  }

  predicate Visible(c: Check, now: int) {
    c.sourceMode == Live && c.checkedAt <= now
  }

  predicate SameKey(c: Check, d: Check) {
    c.checkType == d.checkType && c.sourceId == d.sourceId
  }

  /** c is the last visible check recorded for its leg and source. */
  ghost predicate IsLatest(checks: seq<Check>, now: int, c: Check) {
    c in checks && Visible(c, now) &&
    forall d :: d in checks && Visible(d, now) && SameKey(c, d) ==> d.recordedSequence <= c.recordedSequence
  }

  predicate Covers(leg: Leg, c: Check) {
    c.checkType == leg.checkType && c.sourceId in leg.allowedSourceIds
  }

  predicate Unexpired(c: Check, now: int) {
    c.validUntil.None? || c.validUntil.value > now
  }

  /** One thing a policy asks of the evidence: a leg, and whether it needs a current authority. */
  datatype Requirement = Requirement(leg: Leg, authority: bool)

  ghost predicate RequiredBy(p: Policy, q: Requirement) {
    if q.authority then q.leg in p.currentAuthorityLegs else q.leg in DocumentLegs(p)
  }

  predicate Fresh(p: Policy, c: Check, now: int) {
    c.checkedAt + p.currentAuthorityFreshnessMs > now
  }

  /** c is evidence for q at `now`. */
  ghost predicate Qualifies(checks: seq<Check>, p: Policy, now: int, q: Requirement, c: Check) {
    && IsLatest(checks, now, c) && Covers(q.leg, c)
    && c.result == Pass && Unexpired(c, now)
    && (q.authority ==> Fresh(p, c, now))
  }

  ghost predicate Met(checks: seq<Check>, p: Policy, now: int, q: Requirement) {
    exists c :: Qualifies(checks, p, now, q, c)
  }

  predicate NoNewer(c: Check, d: Check) {
    d.checkedAt < c.checkedAt || (d.checkedAt == c.checkedAt && d.recordedSequence <= c.recordedSequence)
  }

  /** c is the newest evidence for q at `now`, by check time and then by recording order. */
  ghost predicate IsSelected(checks: seq<Check>, p: Policy, now: int, q: Requirement, c: Check) {
    Qualifies(checks, p, now, q, c) && forall d :: Qualifies(checks, p, now, q, d) ==> NoNewer(c, d)
  }

  ghost predicate Conflicted(checks: seq<Check>, p: Policy, now: int) {
    exists c, leg :: IsLatest(checks, now, c) && (c.result == Mismatch || c.result == Conflict) &&
                     leg in AllLegs(p) && Covers(leg, c)
  }

  /** An instant at which some part of the decision lapses. */
  ghost predicate IsBound(checks: seq<Check>, p: Policy, now: int, e: int) {
    e == now + p.currentAuthorityFreshnessMs || exists q, c :: BoundedBy(checks, p, now, q, c, e)
  }

  ghost predicate BoundedBy(checks: seq<Check>, p: Policy, now: int, q: Requirement, c: Check, e: int) {
    RequiredBy(p, q) && IsSelected(checks, p, now, q, c) && Lapses(p, q, c, e)
  }

  predicate Lapses(p: Policy, q: Requirement, c: Check, e: int) {
    c.validUntil == Some(e) || (q.authority && c.checkedAt + p.currentAuthorityFreshnessMs == e)
  }

  ghost predicate IsExpiry(checks: seq<Check>, p: Policy, now: int, e: int) {
    IsBound(checks, p, now, e) && forall b :: IsBound(checks, p, now, b) ==> e <= b
  }

  ghost predicate DocumentsMet(checks: seq<Check>, p: Policy, now: int) {
    forall leg :: leg in p.requiredDocumentLegs ==> Met(checks, p, now, Requirement(leg, false))
  }

  ghost predicate AuthorityMet(checks: seq<Check>, p: Policy, now: int) {
    forall leg :: leg in p.currentAuthorityLegs ==> Met(checks, p, now, Requirement(leg, true))
  }

  ghost predicate IdentityMet(checks: seq<Check>, p: Policy, now: int) {
    Met(checks, p, now, Requirement(p.identityConsistencyLeg, false))
  }

  /** d is the decision the checks justify under policy p at `now`. */
  ghost predicate Justified(checks: seq<Check>, p: Policy, now: int, d: Decision) {
    if Conflicted(checks, p, now) then
      d == Decision(SelfDeclared, [UnresolvedCredentialConflict], None)
    else if !DocumentsMet(checks, p, now) then
      d == Decision(SelfDeclared, [RequiredEvidenceIncomplete], None)
    else if !IdentityMet(checks, p, now) then
      d == Decision(SelfDeclared, [IdentityConsistencyRequired], None)
    else if !AuthorityMet(checks, p, now) then
      d == Decision(DocumentVerified, [CurrentLiveAuthorityRequired], None)
    else
      d.tier == FullyVerified && d.reasons == [CurrentLiveAuthorityConfirmed] &&
      d.tierExpiresAt.Some? && IsExpiry(checks, p, now, d.tierExpiresAt.value)
  }

  /** The relation is a function: two computations that both meet it cannot differ. */
  lemma JustifiedIsUnique(checks: seq<Check>, p: Policy, now: int, d: Decision, e: Decision)
    requires Justified(checks, p, now, d) && Justified(checks, p, now, e)
    ensures d == e
  {
    if d.tier == FullyVerified {
      assert d.tierExpiresAt.value <= e.tierExpiresAt.value;
    }
  }

  // ---- What FULLY_VERIFIED rests on ----

  /** The tier is never granted beside an unresolved conflict, nor without evidence for every requirement, the newest of
      which it rests on and with which it lapses at the latest. */
  lemma FullyVerifiedIsComplete(checks: seq<Check>, p: Policy, now: int, d: Decision)
    requires Justified(checks, p, now, d) && d.tier == FullyVerified
    ensures forall c, leg :: IsLatest(checks, now, c) && leg in AllLegs(p) && Covers(leg, c) ==>
              c.result != Mismatch && c.result != Conflict
    ensures forall q :: RequiredBy(p, q) ==> exists c :: IsSelected(checks, p, now, q, c)
    ensures forall q, c :: RequiredBy(p, q) && IsSelected(checks, p, now, q, c) && c.validUntil.Some? ==>
              d.tierExpiresAt.value <= c.validUntil.value
  {
    forall q | RequiredBy(p, q)
      ensures exists c :: IsSelected(checks, p, now, q, c)
    {
      assert Met(checks, p, now, q);
      NewestExists(checks, p, now, q);
    }
    forall q, c | RequiredBy(p, q) && IsSelected(checks, p, now, q, c) && c.validUntil.Some?
      ensures d.tierExpiresAt.value <= c.validUntil.value
    {
      SelectedBounds(checks, p, now, q, c);
    }
  }

  /** For every authority leg that is a fresh, unexpired, live PASS from a source the policy declares as an authority,
      and the tier lapses no later than it does. */
  lemma FullyVerifiedIsBacked(checks: seq<Check>, p: Policy, now: int, d: Decision, leg: Leg) returns (c: Check)
    requires Coherent(p) && Justified(checks, p, now, d) && d.tier == FullyVerified
    requires leg in p.currentAuthorityLegs
    ensures c in checks && c.sourceMode == Live && c.result == Pass && Covers(leg, c)
    ensures Source(c.sourceId, Authority) in p.sources
    ensures now - p.currentAuthorityFreshnessMs < c.checkedAt <= now && Unexpired(c, now)
    ensures d.tierExpiresAt.value <= c.checkedAt + p.currentAuthorityFreshnessMs
    ensures c.validUntil.Some? ==> d.tierExpiresAt.value <= c.validUntil.value
  {
    var q := Requirement(leg, true);
    assert Met(checks, p, now, q);
    NewestExists(checks, p, now, q);
    c :| IsSelected(checks, p, now, q, c);
    LegsAreAll(p);
    assert KindFor(p, leg, c.sourceId) == Authority;
    SelectedBounds(checks, p, now, q, c);
  }

  lemma SelectedBounds(checks: seq<Check>, p: Policy, now: int, q: Requirement, c: Check)
    requires RequiredBy(p, q) && IsSelected(checks, p, now, q, c)
    ensures c.validUntil.Some? ==> IsBound(checks, p, now, c.validUntil.value)
    ensures q.authority ==> IsBound(checks, p, now, c.checkedAt + p.currentAuthorityFreshnessMs)
  {
    if c.validUntil.Some? {
      assert BoundedBy(checks, p, now, q, c, c.validUntil.value);
    }
    if q.authority {
      assert BoundedBy(checks, p, now, q, c, c.checkedAt + p.currentAuthorityFreshnessMs);
    }
  }

  /** A granted tier always has an expiry strictly in the future, at most one freshness window away. */
  lemma ExpiryIsInTheFuture(checks: seq<Check>, p: Policy, now: int, d: Decision)
    requires Justified(checks, p, now, d) && d.tier == FullyVerified && p.currentAuthorityFreshnessMs > 0
    ensures now < d.tierExpiresAt.value <= now + p.currentAuthorityFreshnessMs
  {
    assert IsBound(checks, p, now, now + p.currentAuthorityFreshnessMs);
  }

  // ---- Non-interference: only current, allowed evidence matters ----

  /** The latest visible check of an allowed leg and source: all a decision can depend on. */
  ghost predicate Relevant(checks: seq<Check>, p: Policy, now: int, c: Check) {
    IsLatest(checks, now, c) && exists leg :: leg in AllLegs(p) && Covers(leg, c)
  }

  ghost predicate SameRelevant(a: seq<Check>, b: seq<Check>, p: Policy, now: int) {
    forall c :: Relevant(a, p, now, c) <==> Relevant(b, p, now, c)
  }

  lemma RelevantQualifies(a: seq<Check>, b: seq<Check>, p: Policy, now: int, q: Requirement, c: Check)
    requires SameRelevant(a, b, p, now) && RequiredBy(p, q) && Qualifies(a, p, now, q, c)
    ensures Qualifies(b, p, now, q, c)
  {
    assert q.leg in AllLegs(p);
    assert Relevant(a, p, now, c);
    assert Relevant(b, p, now, c);
  }

  lemma SameEvidence(a: seq<Check>, b: seq<Check>, p: Policy, now: int)
    requires SameRelevant(a, b, p, now)
    ensures forall q, c :: RequiredBy(p, q) ==> (Qualifies(a, p, now, q, c) <==> Qualifies(b, p, now, q, c))
    ensures Conflicted(a, p, now) ==> Conflicted(b, p, now)
  {
    forall q, c | RequiredBy(p, q)
      ensures Qualifies(a, p, now, q, c) <==> Qualifies(b, p, now, q, c)
    {
      if Qualifies(a, p, now, q, c) { RelevantQualifies(a, b, p, now, q, c); }
      if Qualifies(b, p, now, q, c) { RelevantQualifies(b, a, p, now, q, c); }
    }
    if Conflicted(a, p, now) {
      var c, leg :| IsLatest(a, now, c) && (c.result == Mismatch || c.result == Conflict) &&
                    leg in AllLegs(p) && Covers(leg, c);
      assert Relevant(a, p, now, c);
      assert Relevant(b, p, now, c);
    }
  }

  lemma SameSelection(a: seq<Check>, b: seq<Check>, p: Policy, now: int)
    requires SameRelevant(a, b, p, now)
    ensures DocumentsMet(a, p, now) ==> DocumentsMet(b, p, now)
    ensures IdentityMet(a, p, now) ==> IdentityMet(b, p, now)
    ensures AuthorityMet(a, p, now) ==> AuthorityMet(b, p, now)
    ensures forall e :: IsBound(a, p, now, e) ==> IsBound(b, p, now, e)
  {
    SameEvidence(a, b, p, now);
    forall q | RequiredBy(p, q) && Met(a, p, now, q)
      ensures Met(b, p, now, q)
    {
      var c :| Qualifies(a, p, now, q, c);
      assert Qualifies(b, p, now, q, c);
    }
    forall e | IsBound(a, p, now, e)
      ensures IsBound(b, p, now, e)
    {
      if e != now + p.currentAuthorityFreshnessMs {
        var q, c :| BoundedBy(a, p, now, q, c, e);
        assert BoundedBy(b, p, now, q, c, e);
      }
    }
  }

  /** Two histories with the same relevant checks get the same decision. */
  lemma OnlyRelevantChecksMatter(a: seq<Check>, b: seq<Check>, p: Policy, now: int, d: Decision)
    requires SameRelevant(a, b, p, now) && Justified(a, p, now, d)
    ensures Justified(b, p, now, d)
  {
    SameEvidence(a, b, p, now);
    SameEvidence(b, a, p, now);
    SameSelection(a, b, p, now);
    SameSelection(b, a, p, now);
  }

  /** A check that is not live, dated in the future, superseded, or from a source no leg allows for its type. */
  ghost predicate Negligible(checks: seq<Check>, p: Policy, now: int, c: Check) {
    || !Visible(c, now)
    || (exists d :: d in checks && Visible(d, now) && SameKey(c, d) && c.recordedSequence < d.recordedSequence)
    || (forall leg :: leg in AllLegs(p) ==> !Covers(leg, c))
  }

  function Remove<T>(s: seq<T>, i: nat): seq<T>
    requires i < |s|
  {
    s[..i] + s[i + 1..]
  }

  lemma NegligibleIsIrrelevant(checks: seq<Check>, p: Policy, now: int, i: nat)
    requires WellFormed(checks) && i < |checks| && Negligible(checks, p, now, checks[i])
    ensures SameRelevant(checks, Remove(checks, i), p, now)
  {
    var rest := Remove(checks, i);
    forall c
      ensures c in rest <==> c in checks && c != checks[i]
    {
      if c in rest {
        var j :| 0 <= j < |rest| && rest[j] == c;
        assert c == checks[if j < i then j else j + 1];
      }
      if c in checks && c != checks[i] {
        var j :| 0 <= j < |checks| && checks[j] == c;
        assert rest[if j < i then j else j - 1] == c;
      }
    }
    forall c
      ensures Relevant(checks, p, now, c) <==> Relevant(rest, p, now, c)
    {
      if Relevant(rest, p, now, c) && Visible(checks[i], now) && SameKey(c, checks[i]) {
        var leg :| leg in AllLegs(p) && Covers(leg, c);
        assert Covers(leg, checks[i]);
        var d :| d in checks && Visible(d, now) && SameKey(checks[i], d) &&
                 checks[i].recordedSequence < d.recordedSequence;
        assert d in rest;
      }
    }
  }

  /** Removing a negligible check never changes the decision. */
  lemma NonInterference(checks: seq<Check>, p: Policy, now: int, i: nat, d: Decision)
    requires WellFormed(checks) && i < |checks| && Negligible(checks, p, now, checks[i])
    requires Justified(checks, p, now, d)
    ensures Justified(Remove(checks, i), p, now, d)
  {
    NegligibleIsIrrelevant(checks, p, now, i);
    OnlyRelevantChecksMatter(checks, Remove(checks, i), p, now, d);
  }

  /** Nor does the order in which the checks are listed. */
  lemma OrderDoesNotMatter(a: seq<Check>, b: seq<Check>, p: Policy, now: int, d: Decision)
    requires multiset(a) == multiset(b) && Justified(a, p, now, d)
    ensures Justified(b, p, now, d)
  {
    forall c
      ensures c in a <==> c in b
    {
      if c in a { SameMultisetSameElements(a, b, c); }
      if c in b { SameMultisetSameElements(b, a, c); }
    }
    OnlyRelevantChecksMatter(a, b, p, now, d);
  }

  // ---- What the expiry promises about later decisions on the same checks ----

  ghost predicate NoLaterChecks(checks: seq<Check>, now: int) {
    forall c :: c in checks ==> c.checkedAt <= now
  }

  /** The latest checks do not change with time, and evidence is only ever lost. */
  lemma EvidenceOnlyLapses(checks: seq<Check>, p: Policy, now: int, t: int)
    requires NoLaterChecks(checks, now) && now <= t
    ensures forall c :: IsLatest(checks, t, c) <==> IsLatest(checks, now, c)
    ensures forall q, c :: Qualifies(checks, p, t, q, c) <==>
                           Qualifies(checks, p, now, q, c) && Unexpired(c, t) && (q.authority ==> Fresh(p, c, t))
    ensures Conflicted(checks, p, t) <==> Conflicted(checks, p, now)
  {
    assert forall c :: c in checks ==> (Visible(c, t) <==> Visible(c, now));
  }

  /** Evidence selected at `now` is still selected at any t before the expiry. */
  lemma SelectionIsStable(checks: seq<Check>, p: Policy, now: int, e: int, t: int, q: Requirement, c: Check)
    requires NoLaterChecks(checks, now) && IsExpiry(checks, p, now, e) && now <= t < e && RequiredBy(p, q)
    requires Met(checks, p, now, q)
    ensures IsSelected(checks, p, t, q, c) <==> IsSelected(checks, p, now, q, c)
  {
    EvidenceOnlyLapses(checks, p, now, t);
    NewestExists(checks, p, now, q);
    var s :| IsSelected(checks, p, now, q, s);
    SelectedLivesOn(checks, p, now, e, t, q, s);
    if IsSelected(checks, p, now, q, c) { SelectedLivesOn(checks, p, now, e, t, q, c); }
    if IsSelected(checks, p, t, q, c) {
      assert NoNewer(c, s) && NoNewer(s, c);
    }
  }

  lemma SelectedLivesOn(checks: seq<Check>, p: Policy, now: int, e: int, t: int, q: Requirement, c: Check)
    requires NoLaterChecks(checks, now) && IsExpiry(checks, p, now, e) && now <= t < e && RequiredBy(p, q)
    requires IsSelected(checks, p, now, q, c)
    ensures Qualifies(checks, p, t, q, c)
  {
    EvidenceOnlyLapses(checks, p, now, t);
    SelectedBounds(checks, p, now, q, c);
  }

  /** Some candidate is newest, because the checks are finitely many. */
  lemma NewestExists(checks: seq<Check>, p: Policy, now: int, q: Requirement)
    requires Met(checks, p, now, q)
    ensures exists c :: IsSelected(checks, p, now, q, c)
  {
    var c0 :| Qualifies(checks, p, now, q, c0);
    var c := NewestAmong(checks, p, now, q, |checks|, c0);
    assert checks[..|checks|] == checks;
    assert IsSelected(checks, p, now, q, c);
  }

  lemma {:induction false} NewestAmong(checks: seq<Check>, p: Policy, now: int, q: Requirement, n: nat, c0: Check)
      returns (c: Check)
    requires n <= |checks| && Qualifies(checks, p, now, q, c0)
    ensures Qualifies(checks, p, now, q, c)
    ensures forall d :: d in checks[..n] && Qualifies(checks, p, now, q, d) ==> NoNewer(c, d)
  {
    if n == 0 {
      c := c0;
    } else {
      c := NewestAmong(checks, p, now, q, n - 1, c0);
      assert checks[..n] == checks[..n - 1] + [checks[n - 1]];
      if Qualifies(checks, p, now, q, checks[n - 1]) && !NoNewer(c, checks[n - 1]) {
        c := checks[n - 1];
      }
    }
  }

  /** Deciding again on the same checks at any instant before the expiry grants the same tier, on the same
      selected evidence, with exactly the same expiry. */
  lemma StableUntilExpiry(checks: seq<Check>, p: Policy, now: int, d: Decision, t: int)
    requires Coherent(p) && NoLaterChecks(checks, now)
    requires Justified(checks, p, now, d) && d.tier == FullyVerified
    requires now <= t < d.tierExpiresAt.value
    ensures Justified(checks, p, t, d)
    ensures SameSelectionAt(checks, p, now, t)
  {
    var e := d.tierExpiresAt.value;
    AllRequirementsMet(checks, p, now);
    forall q, c | RequiredBy(p, q)
      ensures IsSelected(checks, p, t, q, c) <==> IsSelected(checks, p, now, q, c)
    {
      SelectionIsStable(checks, p, now, e, t, q, c);
    }
    forall q | RequiredBy(p, q)
      ensures Met(checks, p, t, q)
    {
      NewestExists(checks, p, now, q);
      var c :| IsSelected(checks, p, now, q, c);
      assert IsSelected(checks, p, t, q, c);
    }
    EvidenceOnlyLapses(checks, p, now, t);
    MetAtLegs(checks, p, t);
    ExpiryIsStable(checks, p, now, e, t);
  }

  ghost predicate SameSelectionAt(checks: seq<Check>, p: Policy, now: int, t: int) {
    forall q, c :: RequiredBy(p, q) ==> (IsSelected(checks, p, t, q, c) <==> IsSelected(checks, p, now, q, c))
  }

  lemma ExpiryIsStable(checks: seq<Check>, p: Policy, now: int, e: int, t: int)
    requires Coherent(p) && AuthorityMet(checks, p, now) && IsExpiry(checks, p, now, e) && now <= t
    requires SameSelectionAt(checks, p, now, t)
    ensures IsExpiry(checks, p, t, e)
  {
    ExpiryIsEvidenceBound(checks, p, now, e);
    var q, c :| BoundedBy(checks, p, now, q, c, e);
    assert BoundedBy(checks, p, t, q, c, e);
    forall b | IsBound(checks, p, t, b)
      ensures e <= b
    {
      if b == t + p.currentAuthorityFreshnessMs {
        assert IsBound(checks, p, now, now + p.currentAuthorityFreshnessMs);
      } else {
        var q', c' :| BoundedBy(checks, p, t, q', c', b);
        assert BoundedBy(checks, p, now, q', c', b);
        assert IsBound(checks, p, now, b);
      }
    }
  }

  lemma MetAtLegs(checks: seq<Check>, p: Policy, t: int)
    requires forall q :: RequiredBy(p, q) ==> Met(checks, p, t, q)
    ensures DocumentsMet(checks, p, t) && IdentityMet(checks, p, t) && AuthorityMet(checks, p, t)
  {
    assert forall leg :: leg in DocumentLegs(p) ==> RequiredBy(p, Requirement(leg, false));
    assert forall leg :: leg in p.currentAuthorityLegs ==> RequiredBy(p, Requirement(leg, true));
    assert p.identityConsistencyLeg == DocumentLegs(p)[|p.requiredDocumentLegs|];
  }

  lemma AllRequirementsMet(checks: seq<Check>, p: Policy, now: int)
    requires DocumentsMet(checks, p, now) && IdentityMet(checks, p, now) && AuthorityMet(checks, p, now)
    ensures forall q :: RequiredBy(p, q) ==> Met(checks, p, now, q)
  {
    forall q | RequiredBy(p, q)
      ensures Met(checks, p, now, q)
    {
      assert q == Requirement(q.leg, q.authority);
    }
  }

  /** The `now + freshness` bound is never the only one: an authority leg's own freshness comes no later. */
  lemma ExpiryIsEvidenceBound(checks: seq<Check>, p: Policy, now: int, e: int)
    requires p.currentAuthorityLegs != [] && AuthorityMet(checks, p, now) && IsExpiry(checks, p, now, e)
    ensures exists q, c :: BoundedBy(checks, p, now, q, c, e)
  {
    if e == now + p.currentAuthorityFreshnessMs {
      var q := Requirement(p.currentAuthorityLegs[0], true);
      assert Met(checks, p, now, q);
      NewestExists(checks, p, now, q);
      var c :| IsSelected(checks, p, now, q, c);
      assert BoundedBy(checks, p, now, q, c, c.checkedAt + p.currentAuthorityFreshnessMs);
      assert IsBound(checks, p, now, c.checkedAt + p.currentAuthorityFreshnessMs);
    }
  }

  /** q has no evidence left at t, although it had some at `now`. */
  ghost predicate RunsOut(checks: seq<Check>, p: Policy, now: int, q: Requirement, t: int) {
    RequiredBy(p, q) &&
    forall c :: Qualifies(checks, p, now, q, c) ==> !Unexpired(c, t) || (q.authority && !Fresh(p, c, t))
  }

  ghost predicate GrantedAt(checks: seq<Check>, p: Policy, t: int) {
    exists d :: Justified(checks, p, t, d) && d.tier == FullyVerified
  }

  /** Exactly when a later decision on the same checks still grants the tier. */
  lemma GrantedWhileEvidenceLasts(checks: seq<Check>, p: Policy, now: int, d: Decision, t: int)
    requires Coherent(p) && NoLaterChecks(checks, now)
    requires Justified(checks, p, now, d) && d.tier == FullyVerified && now <= t
    ensures GrantedAt(checks, p, t) <==> forall q :: RequiredBy(p, q) ==> !RunsOut(checks, p, now, q, t)
  {
    EvidenceOnlyLapses(checks, p, now, t);
    AllRequirementsMet(checks, p, now);
    forall q | RequiredBy(p, q)
      ensures Met(checks, p, t, q) <==> !RunsOut(checks, p, now, q, t)
    {
      if c :| Qualifies(checks, p, t, q, c) { assert Qualifies(checks, p, now, q, c); }
    }
    if GrantedAt(checks, p, t) {
      AllRequirementsMet(checks, p, t);
    }
    if forall q :: RequiredBy(p, q) ==> !RunsOut(checks, p, now, q, t) {
      MetAtLegs(checks, p, t);
      ADecisionExists(checks, p, t);
    }
  }

  lemma ADecisionExists(checks: seq<Check>, p: Policy, t: int)
    requires Coherent(p) && !Conflicted(checks, p, t)
    requires DocumentsMet(checks, p, t) && IdentityMet(checks, p, t) && AuthorityMet(checks, p, t)
    ensures GrantedAt(checks, p, t)
  {
    var e := LeastBound(checks, p, t);
    assert Justified(checks, p, t, Decision(FullyVerified, [CurrentLiveAuthorityConfirmed], Some(e)));
  }

  /** Bounds lie in (t, t + freshness], so one of them is least. */
  lemma LeastBound(checks: seq<Check>, p: Policy, t: int) returns (e: int)
    requires Coherent(p)
    ensures IsExpiry(checks, p, t, e)
  {
    e := t + p.currentAuthorityFreshnessMs;
    assert IsBound(checks, p, t, e);
    while exists b :: IsBound(checks, p, t, b) && b < e
      invariant IsBound(checks, p, t, e)
      decreases e - t
    {
      var b :| IsBound(checks, p, t, b) && b < e;
      if b != t + p.currentAuthorityFreshnessMs {
        var q, c :| BoundedBy(checks, p, t, q, c, b);
        assert b > t;
      }
      e := b;
    }
  }

  /** The expiry E is the exact end of validity if and only if some requirement has no candidate outliving E.
      Otherwise — only possible with alternative sources — the newest evidence was chosen over longer-lived
      evidence, and re-deciding at E would still grant the tier. */
  lemma ExpiryIsExactIff(checks: seq<Check>, p: Policy, now: int, d: Decision)
    requires Coherent(p) && NoLaterChecks(checks, now)
    requires Justified(checks, p, now, d) && d.tier == FullyVerified
    ensures (forall t :: t >= d.tierExpiresAt.value ==> !GrantedAt(checks, p, t))
            <==> exists q :: RunsOut(checks, p, now, q, d.tierExpiresAt.value)
  {
    var e := d.tierExpiresAt.value;
    ExpiryIsInTheFuture(checks, p, now, d);
    GrantedWhileEvidenceLasts(checks, p, now, d, e);
    if q :| RunsOut(checks, p, now, q, e) {
      forall t | t >= e
        ensures !GrantedAt(checks, p, t)
      {
        assert RunsOut(checks, p, now, q, t);
        GrantedWhileEvidenceLasts(checks, p, now, d, t);
      }
    }
  }

  ghost predicate SingleSourced(p: Policy) {
    forall leg :: leg in AllLegs(p) ==> |leg.allowedSourceIds| == 1
  }

  /** With one source per leg there is no alternative: the tier is granted up to E and never from E on. */
  lemma TightWithSingleSources(checks: seq<Check>, p: Policy, now: int, d: Decision, t: int)
    requires WellFormed(checks) && Coherent(p) && SingleSourced(p) && NoLaterChecks(checks, now)
    requires Justified(checks, p, now, d) && d.tier == FullyVerified && t >= now
    ensures GrantedAt(checks, p, t) <==> t < d.tierExpiresAt.value
  {
    if t < d.tierExpiresAt.value {
      StableUntilExpiry(checks, p, now, d, t);
    } else {
      SoleEvidenceRunsOut(checks, p, now, d);
      ExpiryIsExactIff(checks, p, now, d);
    }
  }

  lemma SoleEvidenceRunsOut(checks: seq<Check>, p: Policy, now: int, d: Decision)
    requires WellFormed(checks) && Coherent(p) && SingleSourced(p)
    requires Justified(checks, p, now, d) && d.tier == FullyVerified
    ensures exists q :: RunsOut(checks, p, now, q, d.tierExpiresAt.value)
  {
    var e := d.tierExpiresAt.value;
    ExpiryIsEvidenceBound(checks, p, now, e);
    var q, c :| BoundedBy(checks, p, now, q, c, e);
    assert q.leg in AllLegs(p);
    forall c' | Qualifies(checks, p, now, q, c')
      ensures c' == c
    {
      SoleCandidate(checks, p, now, q, c, c');
    }
    assert RunsOut(checks, p, now, q, e);
  }

  lemma SoleCandidate(checks: seq<Check>, p: Policy, now: int, q: Requirement, c: Check, d: Check)
    requires WellFormed(checks) && |q.leg.allowedSourceIds| == 1
    requires Qualifies(checks, p, now, q, c) && Qualifies(checks, p, now, q, d)
    ensures c == d
  {
    OneOfOne(q.leg.allowedSourceIds, c.sourceId, d.sourceId);
    SameSequenceSameCheck(checks, c, d);
  }

  lemma OneOfOne(ids: seq<string>, a: string, b: string)
    requires |ids| == 1 && a in ids && b in ids
    ensures a == b
  {
  }

  lemma SameSequenceSameCheck(checks: seq<Check>, c: Check, d: Check)
    requires WellFormed(checks) && c in checks && d in checks && c.recordedSequence == d.recordedSequence
    ensures c == d
  {
    var i :| 0 <= i < |checks| && checks[i] == c;
    var j :| 0 <= j < |checks| && checks[j] == d;
    if i < j {
    } else if j < i {
    }
  }

  // ---- The bounds of a decision, from one selected check per requirement ----

  /** e is an instant at which some selected evidence lapses. */
  ghost predicate LapseOf(p: Policy, selected: seq<Check>, authority: seq<Check>, e: int) {
    || (exists i :: 0 <= i < |selected| && selected[i].validUntil == Some(e))
    || (exists i :: 0 <= i < |authority| && authority[i].checkedAt + p.currentAuthorityFreshnessMs == e)
  }

  function LegsOf(p: Policy, authority: bool): seq<Leg> {
    if authority then p.currentAuthorityLegs else p.requiredDocumentLegs
  }

  /** `found` holds the selected evidence of each of these legs, in their order. */
  ghost predicate Selects(checks: seq<Check>, p: Policy, now: int, authority: bool, found: seq<Check>) {
    |found| == |LegsOf(p, authority)| &&
    forall i :: 0 <= i < |found| ==>
      IsSelected(checks, p, now, Requirement(LegsOf(p, authority)[i], authority), found[i])
  }

  /** Newest evidence is unique. */
  lemma SelectionIsUnique(checks: seq<Check>, p: Policy, now: int, q: Requirement, c: Check, d: Check)
    requires WellFormed(checks) && IsSelected(checks, p, now, q, c) && IsSelected(checks, p, now, q, d)
    ensures c == d
  {
    assert NoNewer(c, d) && NoNewer(d, c);
    SameSequenceSameCheck(checks, c, d);
  }

  /** The bounds of a decision are its freshness window and the instants its selected evidence lapses. */
  lemma LapsesAreBounds(checks: seq<Check>, p: Policy, now: int, documents: seq<Check>,
                        identity: Check, authority: seq<Check>)
    requires WellFormed(checks)
    requires Selects(checks, p, now, false, documents) && Selects(checks, p, now, true, authority)
    requires IsSelected(checks, p, now, Requirement(p.identityConsistencyLeg, false), identity)
    ensures forall e :: IsBound(checks, p, now, e) <==>
                        e == now + p.currentAuthorityFreshnessMs ||
                        LapseOf(p, documents + [identity] + authority, authority, e)
  {
    forall e
      ensures IsBound(checks, p, now, e) ==> e == now + p.currentAuthorityFreshnessMs ||
                                             LapseOf(p, documents + [identity] + authority, authority, e)
      ensures LapseOf(p, documents + [identity] + authority, authority, e) ==> IsBound(checks, p, now, e)
    {
      if e != now + p.currentAuthorityFreshnessMs && IsBound(checks, p, now, e) {
        var q, c :| BoundedBy(checks, p, now, q, c, e);
        BoundIsLapse(checks, p, now, documents, identity, authority, q, c, e);
      }
      if LapseOf(p, documents + [identity] + authority, authority, e) {
        LapseIsBound(checks, p, now, documents, identity, authority, e);
      }
    }
  }

  lemma LapseIsBound(checks: seq<Check>, p: Policy, now: int, documents: seq<Check>,
                      identity: Check, authority: seq<Check>, e: int)
    requires Selects(checks, p, now, false, documents) && Selects(checks, p, now, true, authority)
    requires IsSelected(checks, p, now, Requirement(p.identityConsistencyLeg, false), identity)
    requires LapseOf(p, documents + [identity] + authority, authority, e)
    ensures IsBound(checks, p, now, e)
  {
    var selected := documents + [identity] + authority;
    if i :| 0 <= i < |selected| && selected[i].validUntil == Some(e) {
      SelectedServes(checks, p, now, documents, identity, authority, i, e);
    } else {
      var i :| 0 <= i < |authority| && authority[i].checkedAt + p.currentAuthorityFreshnessMs == e;
      SelectedServes(checks, p, now, documents, identity, authority, |documents| + 1 + i, e);
    }
  }

  lemma BoundIsLapse(checks: seq<Check>, p: Policy, now: int, documents: seq<Check>,
                      identity: Check, authority: seq<Check>, q: Requirement, c: Check, e: int)
    requires WellFormed(checks) && BoundedBy(checks, p, now, q, c, e)
    requires Selects(checks, p, now, false, documents) && Selects(checks, p, now, true, authority)
    requires IsSelected(checks, p, now, Requirement(p.identityConsistencyLeg, false), identity)
    ensures LapseOf(p, documents + [identity] + authority, authority, e)
  {
    var selected := documents + [identity] + authority;
    if q.leg in LegsOf(p, q.authority) {
      var i :| 0 <= i < |LegsOf(p, q.authority)| && LegsOf(p, q.authority)[i] == q.leg;
      assert q == Requirement(LegsOf(p, q.authority)[i], q.authority);
      var d := if q.authority then authority[i] else documents[i];
      SelectionIsUnique(checks, p, now, q, c, d);
      assert d == selected[if q.authority then |documents| + 1 + i else i];
    } else {
      assert q == Requirement(p.identityConsistencyLeg, false);
      SelectionIsUnique(checks, p, now, q, c, identity);
      assert selected[|documents|] == identity;
    }
  }

  /** Each piece of selected evidence serves some requirement of the policy, and bounds the tier. */
  lemma SelectedServes(checks: seq<Check>, p: Policy, now: int, documents: seq<Check>,
                       identity: Check, authority: seq<Check>, i: nat, e: int)
    requires Selects(checks, p, now, false, documents) && Selects(checks, p, now, true, authority)
    requires IsSelected(checks, p, now, Requirement(p.identityConsistencyLeg, false), identity)
    requires i < |documents| + 1 + |authority|
    requires Lapses(p, Requirement(p.identityConsistencyLeg, i > |documents|), (documents + [identity] + authority)[i],
                    e)
    ensures IsBound(checks, p, now, e)
  {
    var n := |documents|;
    var q := if i < n then Requirement(p.requiredDocumentLegs[i], false)
             else if i == n then Requirement(p.identityConsistencyLeg, false)
             else Requirement(p.currentAuthorityLegs[i - n - 1], true);
    assert q.leg in (if i < n then LegsOf(p, false) else if i == n then [q.leg] else LegsOf(p, true));
    LegsAreAll(p);
    assert RequiredBy(p, q);
    assert BoundedBy(checks, p, now, q, (documents + [identity] + authority)[i], e);
  }
}
