/** What a justified decision says of the recorded rows, column by column: which of them count, which of them conflict,
    which meet a leg, and when the tier they carry lapses. */
module TierColumns {
  import opened Sequences
  import opened CredentialPolicy
  import opened TierDecision
  import TierDatabase

  /** The last row recorded of its type and source among those that are LIVE and not dated after `now`. */
  ghost predicate LastRecorded(checks: seq<Check>, now: int, c: Check) {
    && c in checks && c.sourceMode == Live && c.checkedAt <= now
    && forall d :: d in checks && d.sourceMode == Live && d.checkedAt <= now &&
                   d.checkType == c.checkType && d.sourceId == c.sourceId
                   ==> d.recordedSequence <= c.recordedSequence
  }

  /** The row is of one of the legs' types, and from a source that leg allows. */
  ghost predicate AnyLegNames(p: Policy, c: Check) {
    || (exists leg :: leg in p.requiredDocumentLegs && leg.checkType == c.checkType &&
                      c.sourceId in leg.allowedSourceIds)
    || (p.identityConsistencyLeg.checkType == c.checkType && c.sourceId in p.identityConsistencyLeg.allowedSourceIds)
    || (exists leg :: leg in p.currentAuthorityLegs && leg.checkType == c.checkType &&
                      c.sourceId in leg.allowedSourceIds)
  }

  ghost predicate Conflicting(checks: seq<Check>, p: Policy, now: int, c: Check) {
    LastRecorded(checks, now, c) && AnyLegNames(p, c) && c.result != Pass && c.result != NotFound &&
    c.result != Unavailable
  }

  /** An unresolved conflict overrules all evidence, and is reported only if there is one. */
  lemma ConflictOverrules(checks: seq<Check>, p: Policy, now: int, d: Decision)
    requires Justified(checks, p, now, d)
    ensures (exists c :: Conflicting(checks, p, now, c)) ==>
              d == Decision(SelfDeclared, [UnresolvedCredentialConflict], None)
    ensures d.reasons == [UnresolvedCredentialConflict] ==> exists c :: Conflicting(checks, p, now, c)
  {
    if c :| Conflicting(checks, p, now, c) {
      ConflictingConflicts(checks, p, now, c);
    }
    if Conflicted(checks, p, now) {
      var c, leg :| IsLatest(checks, now, c) && (c.result == Mismatch || c.result == Conflict) &&
                    leg in AllLegs(p) && Covers(leg, c);
      assert Conflicting(checks, p, now, c);
    }
  }

  lemma ConflictingConflicts(checks: seq<Check>, p: Policy, now: int, c: Check)
    requires Conflicting(checks, p, now, c)
    ensures Conflicted(checks, p, now)
  {
    assert IsLatest(checks, now, c);
    assert p.identityConsistencyLeg in AllLegs(p);
    var leg: Leg :| leg in AllLegs(p) && leg.checkType == c.checkType && c.sourceId in leg.allowedSourceIds;
    assert Covers(leg, c);
  }

  /** A PASS that has not run out, from a source the leg allows; for an authority leg also within the freshness
      window. */
  ghost predicate Proves(checks: seq<Check>, p: Policy, now: int, leg: Leg, authority: bool, c: Check) {
    && LastRecorded(checks, now, c) && c.checkType == leg.checkType && c.sourceId in leg.allowedSourceIds
    && c.result == Pass && (c.validUntil == None || now < c.validUntil.value)
    && (authority ==> now - p.currentAuthorityFreshnessMs < c.checkedAt)
  }

  ghost predicate Proven(checks: seq<Check>, p: Policy, now: int, leg: Leg, authority: bool) {
    exists c :: Proves(checks, p, now, leg, authority, c)
  }

  lemma ProvesQualifies(checks: seq<Check>, p: Policy, now: int, leg: Leg, authority: bool, c: Check)
    ensures Proves(checks, p, now, leg, authority, c) <==> Qualifies(checks, p, now, Requirement(leg, authority), c)
  {
  }

  /** Such a row meets its requirement, and nothing else does. */
  lemma ProvenIsMet(checks: seq<Check>, p: Policy, now: int, leg: Leg, authority: bool)
    ensures Proven(checks, p, now, leg, authority) <==> Met(checks, p, now, Requirement(leg, authority))
  {
    if c :| Proves(checks, p, now, leg, authority, c) {
      ProvesQualifies(checks, p, now, leg, authority, c);
    }
    if c :| Qualifies(checks, p, now, Requirement(leg, authority), c) {
      ProvesQualifies(checks, p, now, leg, authority, c);
    }
  }

  ghost predicate AllProven(checks: seq<Check>, p: Policy, now: int, legs: seq<Leg>, authority: bool) {
    forall leg :: leg in legs ==> Proven(checks, p, now, leg, authority)
  }

  lemma AllProvenIsMet(checks: seq<Check>, p: Policy, now: int)
    ensures AllProven(checks, p, now, p.requiredDocumentLegs, false) <==> DocumentsMet(checks, p, now)
    ensures Proven(checks, p, now, p.identityConsistencyLeg, false) <==> IdentityMet(checks, p, now)
    ensures AllProven(checks, p, now, p.currentAuthorityLegs, true) <==> AuthorityMet(checks, p, now)
  {
    forall leg: Leg, authority
      ensures Proven(checks, p, now, leg, authority) <==> Met(checks, p, now, Requirement(leg, authority))
    {
      ProvenIsMet(checks, p, now, leg, authority);
    }
  }

  /** The tier and its reason, from the rows: what is lacking is named in this order, and a tier is granted exactly when
      nothing it needs is lacking. */
  lemma TierFromRows(checks: seq<Check>, p: Policy, now: int, d: Decision)
    requires Justified(checks, p, now, d)
    ensures var conflict := exists c :: Conflicting(checks, p, now, c);
            var documents := AllProven(checks, p, now, p.requiredDocumentLegs, false);
            var identity := Proven(checks, p, now, p.identityConsistencyLeg, false);
            var authority := AllProven(checks, p, now, p.currentAuthorityLegs, true);
            && (d.reasons == [UnresolvedCredentialConflict] <==> conflict)
            && (d.reasons == [RequiredEvidenceIncomplete] <==> !conflict && !documents)
            && (d.reasons == [IdentityConsistencyRequired] <==> !conflict && documents && !identity)
            && (d.reasons == [CurrentLiveAuthorityRequired] <==> !conflict && documents && identity && !authority)
            && (d.reasons == [CurrentLiveAuthorityConfirmed] <==> !conflict && documents && identity && authority)
            && (d.tier == FullyVerified <==> !conflict && documents && identity && authority)
            && (d.tier == DocumentVerified <==> !conflict && documents && identity && !authority)
            && (d.tier != FullyVerified ==> d.tierExpiresAt == None)
  {
    ConflictOverrules(checks, p, now, d);
    AllProvenIsMet(checks, p, now);
  }

  /** Of the rows that prove a leg, the one checked last; of two checked at once, the one recorded last. */
  ghost predicate Newest(checks: seq<Check>, p: Policy, now: int, leg: Leg, authority: bool, c: Check) {
    && Proves(checks, p, now, leg, authority, c)
    && forall d :: Proves(checks, p, now, leg, authority, d) ==>
         d.checkedAt < c.checkedAt || (d.checkedAt == c.checkedAt && d.recordedSequence <= c.recordedSequence)
  }

  lemma NewestIsSelected(checks: seq<Check>, p: Policy, now: int, leg: Leg, authority: bool, c: Check)
    ensures Newest(checks, p, now, leg, authority, c) <==> IsSelected(checks, p, now, Requirement(leg, authority), c)
  {
    forall d
      ensures Proves(checks, p, now, leg, authority, d) <==> Qualifies(checks, p, now, Requirement(leg, authority), d)
    {
      ProvesQualifies(checks, p, now, leg, authority, d);
    }
  }

  /** The leg is asked for: as a document or identity leg, or as an authority leg. */
  ghost predicate Asked(p: Policy, leg: Leg, authority: bool) {
    if authority then leg in p.currentAuthorityLegs
    else leg in p.requiredDocumentLegs || leg == p.identityConsistencyLeg
  }

  /** The instants at which the newest row of some leg stops proving it. */
  ghost predicate RunsOutAt(checks: seq<Check>, p: Policy, now: int, leg: Leg, authority: bool, c: Check, e: int) {
    && Asked(p, leg, authority) && Newest(checks, p, now, leg, authority, c)
    && (c.validUntil == Some(e) || (authority && e == c.checkedAt + p.currentAuthorityFreshnessMs))
  }

  lemma BoundsFromRows(checks: seq<Check>, p: Policy, now: int, leg: Leg, authority: bool, c: Check, t: int)
    requires RunsOutAt(checks, p, now, leg, authority, c, t)
    ensures IsBound(checks, p, now, t)
  {
    NewestIsSelected(checks, p, now, leg, authority, c);
    assert RequiredBy(p, Requirement(leg, authority));
    assert BoundedBy(checks, p, now, Requirement(leg, authority), c, t);
  }

  /** The expiry from the rows: the earliest of one freshness window after the decision and the instants at which the
      newest rows run out. */
  lemma ExpiryFromRows(checks: seq<Check>, p: Policy, now: int, d: Decision)
    requires Justified(checks, p, now, d) && d.tier == FullyVerified
    ensures d.tierExpiresAt.Some?
    ensures var e := d.tierExpiresAt.value;
            && e <= now + p.currentAuthorityFreshnessMs
            && (forall leg, authority, c, t :: RunsOutAt(checks, p, now, leg, authority, c, t) ==> e <= t)
            && (e == now + p.currentAuthorityFreshnessMs ||
                exists leg, authority, c :: RunsOutAt(checks, p, now, leg, authority, c, e))
  {
    var e := d.tierExpiresAt.value;
    assert IsBound(checks, p, now, now + p.currentAuthorityFreshnessMs);
    forall leg, authority, c, t | RunsOutAt(checks, p, now, leg, authority, c, t)
      ensures e <= t
    {
      BoundsFromRows(checks, p, now, leg, authority, c, t);
    }
    if e != now + p.currentAuthorityFreshnessMs {
      var q, c :| BoundedBy(checks, p, now, q, c, e);
      NewestIsSelected(checks, p, now, q.leg, q.authority, c);
      assert RunsOutAt(checks, p, now, q.leg, q.authority, c, e);
    }
  }
}
