/** Concrete histories: the hypotheses of the expiry results can be met, and what the results do not say is false. */
module TierExamples {
  import opened Sequences
  import opened CredentialPolicy
  import opened TierDecision

  const DOCUMENT := Leg("D", ["i"])
  const DOCUMENT_EITHER := Leg("D", ["i", "j"])
  const AUTHORITY_LEG := Leg("A", ["a"])

  const SINGLE := Policy("1", "x", [Source("i", Issuer), Source("a", Authority)],
                         [DOCUMENT], DOCUMENT, [AUTHORITY_LEG], 100)

  const ALTERNATIVE := Policy("1", "x", [Source("i", Issuer), Source("j", Issuer), Source("a", Authority)],
                              [DOCUMENT_EITHER], DOCUMENT, [AUTHORITY_LEG], 100)

  const AUTHORITY_CHECK := Check(3, "A", "a", Live, Pass, 5, None)

  /** A document that is valid until 10, and one that stays valid. */
  const SHORT := Check(2, "D", "j", Live, Pass, 1, Some(10))
  const LASTING := Check(1, "D", "i", Live, Pass, 0, None)
  const SOLE := Check(1, "D", "i", Live, Pass, 0, Some(10))

  const GRANT := Decision(FullyVerified, [CurrentLiveAuthorityConfirmed], Some(10))

  lemma AlternativeIsCoherent()
    ensures Coherent(ALTERNATIVE)
  {
    var p := ALTERNATIVE;
    assert SourceIds(p) == ["i", "j", "a"];
    assert p.sources[0] == Source("i", Issuer) && p.sources[1] == Source("j", Issuer) &&
           p.sources[2] == Source("a", Authority);
    assert AllLegs(p) == [DOCUMENT_EITHER, DOCUMENT, AUTHORITY_LEG];
  }

  lemma SingleIsCoherent()
    ensures Coherent(SINGLE) && SingleSourced(SINGLE)
  {
    var p := SINGLE;
    assert SourceIds(p) == ["i", "a"];
    assert p.sources[0] == Source("i", Issuer) && p.sources[1] == Source("a", Authority);
    assert AllLegs(p) == [DOCUMENT, DOCUMENT, AUTHORITY_LEG];
  }

  /** Evidence at 5 and at 10 under the policy with alternatives. */
  lemma AlternativeEvidence(now: int)
    requires 5 <= now <= 10
    ensures var checks := [LASTING, SHORT, AUTHORITY_CHECK];
            && !Conflicted(checks, ALTERNATIVE, now)
            && DocumentsMet(checks, ALTERNATIVE, now) && IdentityMet(checks, ALTERNATIVE, now)
            && AuthorityMet(checks, ALTERNATIVE, now)
  {
    var checks, p := [LASTING, SHORT, AUTHORITY_CHECK], ALTERNATIVE;
    assert checks[0] == LASTING && checks[1] == SHORT && checks[2] == AUTHORITY_CHECK;
    assert Qualifies(checks, p, now, Requirement(DOCUMENT_EITHER, false), LASTING);
    assert Qualifies(checks, p, now, Requirement(DOCUMENT, false), LASTING);
    assert Qualifies(checks, p, now, Requirement(AUTHORITY_LEG, true), AUTHORITY_CHECK);
  }

  lemma TheShortDocumentBounds()
    ensures var checks := [LASTING, SHORT, AUTHORITY_CHECK];
            WellFormed(checks) && NoLaterChecks(checks, 5) && IsExpiry(checks, ALTERNATIVE, 5, 10)
  {
    var checks, p, q := [LASTING, SHORT, AUTHORITY_CHECK], ALTERNATIVE, Requirement(DOCUMENT_EITHER, false);
    assert checks[0] == LASTING && checks[1] == SHORT && checks[2] == AUTHORITY_CHECK;
    assert IsSelected(checks, p, 5, q, SHORT);
    assert BoundedBy(checks, p, 5, q, SHORT, 10);
  }

  /** Not every expiry is the end of validity: the newest evidence is selected, not the longest-lived, and at the
      expiry the same checks would still grant the tier. */
  lemma ExpiryCanComeEarly()
    ensures var checks := [LASTING, SHORT, AUTHORITY_CHECK];
            && Coherent(ALTERNATIVE) && WellFormed(checks) && NoLaterChecks(checks, 5)
            && Justified(checks, ALTERNATIVE, 5, GRANT) && GrantedAt(checks, ALTERNATIVE, 10)
  {
    AlternativeIsCoherent();
    AlternativeEvidence(5);
    AlternativeEvidence(10);
    TheShortDocumentBounds();
    ADecisionExists([LASTING, SHORT, AUTHORITY_CHECK], ALTERNATIVE, 10);
  }

  lemma SoleEvidence()
    ensures var checks := [SOLE, AUTHORITY_CHECK];
            && WellFormed(checks) && NoLaterChecks(checks, 5)
            && Qualifies(checks, SINGLE, 5, Requirement(DOCUMENT, false), SOLE)
            && Qualifies(checks, SINGLE, 5, Requirement(AUTHORITY_LEG, true), AUTHORITY_CHECK)
            && !Conflicted(checks, SINGLE, 5) && !Conflicted(checks, SINGLE, 10)
            && !Met(checks, SINGLE, 10, Requirement(DOCUMENT, false))
  {
    var checks := [SOLE, AUTHORITY_CHECK];
    assert checks[0] == SOLE && checks[1] == AUTHORITY_CHECK;
  }

  lemma TheSoleDocumentBounds()
    ensures IsExpiry([SOLE, AUTHORITY_CHECK], SINGLE, 5, 10)
  {
    var checks, q := [SOLE, AUTHORITY_CHECK], Requirement(DOCUMENT, false);
    SoleEvidence();
    assert IsSelected(checks, SINGLE, 5, q, SOLE);
    assert BoundedBy(checks, SINGLE, 5, q, SOLE, 10);
  }

  /** With single sources the grant ends exactly at its expiry; there a fresh decision says SELF_DECLARED, while the
      degraded row says DOCUMENT_VERIFIED. */
  lemma DegradedTierCanExceedRecomputation()
    ensures var checks := [SOLE, AUTHORITY_CHECK];
            && Coherent(SINGLE) && SingleSourced(SINGLE) && WellFormed(checks) && NoLaterChecks(checks, 5)
            && Justified(checks, SINGLE, 5, GRANT)
            && Justified(checks, SINGLE, 10, Decision(SelfDeclared, [RequiredEvidenceIncomplete], None))
  {
    SingleIsCoherent();
    SoleEvidence();
    TheSoleDocumentBounds();
  }

  /** Exactly when a decision at any later t on the same checks would be DOCUMENT_VERIFIED, as the degraded row is: no
      document or identity requirement has run out of the evidence it had when the tier was granted, and some authority
      leg has. Both are known then, with the instants at which evidence lapses. */
  lemma DegradedTierIsRecomputedIff(checks: seq<Check>, p: Policy, now: int, d: Decision, t: int, r: Decision)
    requires Coherent(p) && NoLaterChecks(checks, now) && now <= t
    requires Justified(checks, p, now, d) && d.tier == FullyVerified && Justified(checks, p, t, r)
    ensures r.tier == DocumentVerified <==>
            && (forall q :: RequiredBy(p, q) && !q.authority ==> !RunsOut(checks, p, now, q, t))
            && (exists q: Requirement :: q.authority && RunsOut(checks, p, now, q, t))
  {
    EvidenceOnlyLapses(checks, p, now, t);
    AllRequirementsMet(checks, p, now);
    forall q | RequiredBy(p, q)
      ensures Met(checks, p, t, q) <==> !RunsOut(checks, p, now, q, t)
    {
      if c :| Qualifies(checks, p, t, q, c) { assert Qualifies(checks, p, now, q, c); }
    }
    PartsAreRequirements(checks, p, t);
  }

  lemma PartsAreRequirements(checks: seq<Check>, p: Policy, t: int)
    ensures DocumentsMet(checks, p, t) && IdentityMet(checks, p, t) <==>
            forall q :: RequiredBy(p, q) && !q.authority ==> Met(checks, p, t, q)
    ensures AuthorityMet(checks, p, t) <==> forall q :: RequiredBy(p, q) && q.authority ==> Met(checks, p, t, q)
  {
    assert forall leg :: leg in p.requiredDocumentLegs ==> RequiredBy(p, Requirement(leg, false));
    assert RequiredBy(p, Requirement(p.identityConsistencyLeg, false));
    assert forall leg :: leg in p.currentAuthorityLegs ==> RequiredBy(p, Requirement(leg, true));
  }

  // ---- The two validators, on one policy ----

  lemma SingleHasIdentifiers()
    ensures IdentifiersOk(SINGLE) && NoBlankIdentifier(SINGLE)
  {
    var p := SINGLE;
    assert CheckTypes(p.requiredDocumentLegs) == ["D"] && CheckTypes(p.currentAuthorityLegs) == ["A"];
    assert SourceIds(p) == ["i", "a"] && AllLegs(p) == [DOCUMENT, DOCUMENT, AUTHORITY_LEG];
    assert forall s: string :: |s| == 1 && s[0] in {'1', 'x', 'i', 'a', 'D', 'A'} ==>
             !TrimsToEmpty(s) && !BtrimsToEmpty(s);
  }

  lemma SingleMapsItsSources()
    ensures SourceMappingOk(SINGLE) && IdentityReusesRequiredLeg(SINGLE) && AuthoritySeparate(SINGLE)
  {
    var p := SINGLE;
    assert AllLegs(p) == [DOCUMENT, DOCUMENT, AUTHORITY_LEG];
    assert p.sources[0] == Source("i", Issuer) && p.sources[1] == Source("a", Authority);
    assert Declares(p.sources, "i") && Declares(p.sources, "a");
    assert !BtrimsToEmpty("i") && !BtrimsToEmpty("a") by { assert "i"[0] != ' ' && "a"[0] != ' '; }
    assert p.requiredDocumentLegs[0] == DOCUMENT;
  }

  /** A policy both validators accept; with a tab for its provider type only the database still does. */
  lemma ATabSeparatesTheValidators()
    ensures AcceptedByDatabase(SINGLE) && Accepted(SINGLE)
    ensures AcceptedByDatabase(SINGLE.(providerType := "\t")) && !Accepted(SINGLE.(providerType := "\t"))
  {
    SingleIsCoherent();
    SingleHasIdentifiers();
    SingleMapsItsSources();
    assert !BtrimsToEmpty("1") && !BtrimsToEmpty("x") by { assert "1"[0] != ' ' && "x"[0] != ' '; }
    ValidatorsAgree(SINGLE);
    TabIsBlankOnlyToTheApplication(SINGLE);
  }
}
