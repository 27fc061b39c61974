/** Which credential policies are accepted, in the fields of a policy: both validators demand one and the same thing,
    and differ only in what they call blank. */
module PolicyColumns {
  import opened CredentialPolicy
  import opened Sequences
  import opened Text

  /** Nothing but JavaScript white space. */
  predicate JsBlank(s: string) {
    forall i :: 0 <= i < |s| ==> s[i] as int in WHITESPACE
  }

  /** Nothing but spaces. */
  predicate SqlBlank(s: string) {
    forall i :: 0 <= i < |s| ==> s[i] as int == 32
  }

  /** At least one leg, no two for one check type, none of them blank. */
  predicate LegList(legs: seq<Leg>, blank: string -> bool) {
    && |legs| > 0
    && (forall i :: 0 <= i < |legs| ==> !blank(legs[i].checkType))
    && (forall i, j :: 0 <= i < j < |legs| ==> legs[i].checkType != legs[j].checkType)
  }

  predicate SourceList(sources: seq<Source>, blank: string -> bool) {
    && |sources| > 0
    && (forall i :: 0 <= i < |sources| ==> !blank(sources[i].sourceId))
    && (forall i, j :: 0 <= i < j < |sources| ==> sources[i].sourceId != sources[j].sourceId)
  }

  /** At least one source, no two alike, each of them declared with one of these kinds. */
  predicate LegNames(leg: Leg, sources: seq<Source>, kinds: set<EvidenceKind>) {
    && |leg.allowedSourceIds| > 0
    && (forall i, j :: 0 <= i < j < |leg.allowedSourceIds| ==> leg.allowedSourceIds[i] != leg.allowedSourceIds[j])
    && (forall i :: 0 <= i < |leg.allowedSourceIds| ==> DeclaredAs(leg.allowedSourceIds[i], sources, kinds))
  }

  predicate DeclaredAs(id: string, sources: seq<Source>, kinds: set<EvidenceKind>) {
    exists j :: 0 <= j < |sources| && sources[j].sourceId == id && sources[j].evidenceKind in kinds
  }

  const DOCUMENT_KINDS := {Issuer, Authority, ManualDocument}

  /** The identity leg repeats a required leg, with no source that the required leg lacks. */
  predicate RepeatsRequired(identity: Leg, required: seq<Leg>) {
    exists k :: 0 <= k < |required| && required[k].checkType == identity.checkType &&
                forall i :: 0 <= i < |identity.allowedSourceIds| ==>
                  identity.allowedSourceIds[i] in required[k].allowedSourceIds
  }

  /** Documents may be backed by any contributing kind, current authority by authorities alone. */
  predicate AllLegsName(p: Policy) {
    && (forall k :: 0 <= k < |p.requiredDocumentLegs| ==>
          LegNames(p.requiredDocumentLegs[k], p.sources, DOCUMENT_KINDS))
    && LegNames(p.identityConsistencyLeg, p.sources, DOCUMENT_KINDS)
    && (forall k :: 0 <= k < |p.currentAuthorityLegs| ==>
          LegNames(p.currentAuthorityLegs[k], p.sources, {Authority}))
  }

  predicate NoCommonType(legs: seq<Leg>, others: seq<Leg>) {
    forall i, j :: 0 <= i < |legs| && 0 <= j < |others| ==> legs[i].checkType != others[j].checkType
  }

  predicate WellFormed(p: Policy, blank: string -> bool) {
    && !blank(p.version) && !blank(p.providerType) && !blank(p.identityConsistencyLeg.checkType)
    && 0 < p.currentAuthorityFreshnessMs <= 3162240000000
    && SourceList(p.sources, blank)
    && LegList(p.requiredDocumentLegs, blank) && LegList(p.currentAuthorityLegs, blank)
    && AllLegsName(p) && RepeatsRequired(p.identityConsistencyLeg, p.requiredDocumentLegs)
    && NoCommonType(p.currentAuthorityLegs, p.requiredDocumentLegs)
  }

  // ---- The database ----

  lemma SqlBlankMeans(s: string)
    ensures BtrimsToEmpty(s) <==> SqlBlank(s)
  {
  }

  lemma JsBlankMeans(s: string)
    ensures TrimsToEmpty(s) <==> JsBlank(s)
  {
    forall i | 0 <= i < |s|
      ensures IsJsWhitespace(s[i]) <==> s[i] as int in WHITESPACE
    {
      WhitespaceByCodePoint(s[i]);
    }
  }

  lemma SourceListMeans(sources: seq<Source>, p: Policy)
    requires p.sources == sources
    ensures SourceList(sources, SqlBlank) <==>
            sources != [] && (forall s :: s in sources ==> !BtrimsToEmpty(s.sourceId)) && Distinct(SourceIds(p))
  {
    forall i | 0 <= i < |sources|
      ensures SourceIds(p)[i] == sources[i].sourceId && sources[i] in sources
    {
    }
  }

  lemma LegListMeans(legs: seq<Leg>)
    ensures LegList(legs, SqlBlank) <==>
            legs != [] && (forall leg :: leg in legs ==> !BtrimsToEmpty(leg.checkType)) && Distinct(CheckTypes(legs))
  {
    forall i | 0 <= i < |legs|
      ensures CheckTypes(legs)[i] == legs[i].checkType && legs[i] in legs
    {
    }
  }

  /** The same about one leg, in terms of the declared sources. */
  predicate LegOk(p: Policy, leg: Leg, kinds: set<EvidenceKind>) {
    && leg.allowedSourceIds != [] && Distinct(leg.allowedSourceIds)
    && (forall id :: id in leg.allowedSourceIds ==> Declares(p.sources, id))
    && (forall id, s :: id in leg.allowedSourceIds && s in p.sources && s.sourceId == id ==> s.evidenceKind in kinds)
  }

  lemma DeclaredAsMeans(p: Policy, id: string, kinds: set<EvidenceKind>)
    requires Distinct(SourceIds(p))
    ensures DeclaredAs(id, p.sources, kinds) <==>
            && Declares(p.sources, id)
            && forall s :: s in p.sources && s.sourceId == id ==> s.evidenceKind in kinds
  {
    if DeclaredAs(id, p.sources, kinds) {
      var j :| 0 <= j < |p.sources| && p.sources[j].sourceId == id && p.sources[j].evidenceKind in kinds;
      forall s | s in p.sources && s.sourceId == id
        ensures s.evidenceKind in kinds
      {
        UniqueSource(p, s, p.sources[j]);
      }
    }
    if s :| s in p.sources && s.sourceId == id && s.evidenceKind in kinds {
      var j :| 0 <= j < |p.sources| && p.sources[j] == s;
      assert p.sources[j].sourceId == id;
    }
  }

  lemma LegNamesMean(p: Policy, leg: Leg, kinds: set<EvidenceKind>)
    requires Distinct(SourceIds(p))
    ensures LegNames(leg, p.sources, kinds) <==> LegOk(p, leg, kinds)
  {
    var ids := leg.allowedSourceIds;
    forall id: string
      ensures DeclaredAs(id, p.sources, kinds) <==>
              && Declares(p.sources, id)
              && forall s :: s in p.sources && s.sourceId == id ==> s.evidenceKind in kinds
    {
      DeclaredAsMeans(p, id, kinds);
    }
    assert (forall i :: 0 <= i < |ids| ==> DeclaredAs(ids[i], p.sources, kinds)) <==>
           (forall id :: id in ids ==> DeclaredAs(id, p.sources, kinds));
  }

  predicate LegsOk(p: Policy) {
    && (forall leg :: leg in p.requiredDocumentLegs ==> LegOk(p, leg, DOCUMENT_KINDS))
    && LegOk(p, p.identityConsistencyLeg, DOCUMENT_KINDS)
    && (forall leg :: leg in p.currentAuthorityLegs ==> LegOk(p, leg, {Authority}))
  }

  lemma LegsByIndex(p: Policy)
    requires Distinct(SourceIds(p))
    ensures LegsOk(p) <==> AllLegsName(p)
  {
    forall leg: Leg, kinds: set<EvidenceKind>
      ensures LegNames(leg, p.sources, kinds) <==> LegOk(p, leg, kinds)
    {
      LegNamesMean(p, leg, kinds);
    }
  }

  lemma DocumentKinds(kind: EvidenceKind)
    ensures !IsNonTier(kind) <==> kind in DOCUMENT_KINDS
  {
  }

  lemma LegsOkMeans(p: Policy)
    requires forall s :: s in p.sources ==> !BtrimsToEmpty(s.sourceId)
    ensures LegsOk(p) <==> SourceMappingOk(p) && SourcesContribute(p)
  {
    LegsAreAll(p);
    forall kind: EvidenceKind
      ensures !IsNonTier(kind) <==> kind in DOCUMENT_KINDS
    {
      DocumentKinds(kind);
    }
    if LegsOk(p) {
      forall leg | leg in AllLegs(p)
        ensures leg.allowedSourceIds != [] && Distinct(leg.allowedSourceIds)
        ensures forall id :: id in leg.allowedSourceIds ==> !BtrimsToEmpty(id) && Declares(p.sources, id)
      {
        assert LegOk(p, leg, DOCUMENT_KINDS) || LegOk(p, leg, {Authority});
      }
    }
    if SourceMappingOk(p) && SourcesContribute(p) {
      forall leg | leg in AllLegs(p)
        ensures leg in DocumentLegs(p) ==> LegOk(p, leg, DOCUMENT_KINDS)
        ensures leg in p.currentAuthorityLegs ==> LegOk(p, leg, {Authority})
      {
      }
    }
  }

  lemma RepeatsMeans(p: Policy)
    ensures RepeatsRequired(p.identityConsistencyLeg, p.requiredDocumentLegs) <==> IdentityReusesRequiredLeg(p)
  {
    var identity, required := p.identityConsistencyLeg, p.requiredDocumentLegs;
    if IdentityReusesRequiredLeg(p) {
      var leg :| leg in required && leg.checkType == identity.checkType &&
                 SubsetOf(identity.allowedSourceIds, leg.allowedSourceIds);
      var k :| 0 <= k < |required| && required[k] == leg;
      assert required[k].checkType == identity.checkType;
    }
    if RepeatsRequired(identity, required) {
      var k :| 0 <= k < |required| && required[k].checkType == identity.checkType &&
               forall i :: 0 <= i < |identity.allowedSourceIds| ==>
                 identity.allowedSourceIds[i] in required[k].allowedSourceIds;
      assert required[k] in required;
    }
  }

  lemma SeparateMeans(p: Policy)
    requires IdentityReusesRequiredLeg(p)
    ensures AuthoritySeparate(p) <==> NoCommonType(p.currentAuthorityLegs, p.requiredDocumentLegs)
  {
  }

  lemma ListsMean(p: Policy)
    ensures SourceList(p.sources, SqlBlank) && LegList(p.requiredDocumentLegs, SqlBlank) &&
            LegList(p.currentAuthorityLegs, SqlBlank) && !SqlBlank(p.identityConsistencyLeg.checkType)
            <==>
            p.sources != [] && p.requiredDocumentLegs != [] && p.currentAuthorityLegs != [] && IdentifiersOk(p)
  {
    SqlBlankMeans(p.identityConsistencyLeg.checkType);
    SourceListMeans(p.sources, p);
    LegListMeans(p.requiredDocumentLegs);
    LegListMeans(p.currentAuthorityLegs);
  }

  /** The database accepts exactly the well-formed policies, blank meaning spaces only. */
  lemma DatabaseAcceptsIff(p: Policy)
    ensures AcceptedByDatabase(p) <==> WellFormed(p, SqlBlank)
  {
    SqlBlankMeans(p.version);
    SqlBlankMeans(p.providerType);
    ListsMean(p);
    RepeatsMeans(p);
    if IdentityReusesRequiredLeg(p) { SeparateMeans(p); }
    if IdentifiersOk(p) {
      LegsByIndex(p);
      LegsOkMeans(p);
    }
  }

  // ---- The application ----

  lemma NoBlankTypes(legs: seq<Leg>)
    ensures (forall t :: t in CheckTypes(legs) ==> !TrimsToEmpty(t)) <==>
            forall i :: 0 <= i < |legs| ==> !JsBlank(legs[i].checkType)
  {
    forall i | 0 <= i < |legs|
      ensures CheckTypes(legs)[i] == legs[i].checkType && CheckTypes(legs)[i] in CheckTypes(legs)
      ensures TrimsToEmpty(legs[i].checkType) <==> JsBlank(legs[i].checkType)
    {
      JsBlankMeans(legs[i].checkType);
    }
  }

  lemma NoBlankSources(p: Policy)
    ensures (forall id :: id in SourceIds(p) ==> !TrimsToEmpty(id)) <==>
            forall i :: 0 <= i < |p.sources| ==> !JsBlank(p.sources[i].sourceId)
  {
    forall i | 0 <= i < |p.sources|
      ensures SourceIds(p)[i] == p.sources[i].sourceId && SourceIds(p)[i] in SourceIds(p)
      ensures TrimsToEmpty(p.sources[i].sourceId) <==> JsBlank(p.sources[i].sourceId)
    {
      JsBlankMeans(p.sources[i].sourceId);
    }
  }

  lemma NoBlankMeans(p: Policy)
    ensures NoBlankIdentifier(p) <==>
            && !JsBlank(p.version) && !JsBlank(p.providerType) && !JsBlank(p.identityConsistencyLeg.checkType)
            && (forall i :: 0 <= i < |p.sources| ==> !JsBlank(p.sources[i].sourceId))
            && (forall i :: 0 <= i < |p.requiredDocumentLegs| ==> !JsBlank(p.requiredDocumentLegs[i].checkType))
            && (forall i :: 0 <= i < |p.currentAuthorityLegs| ==> !JsBlank(p.currentAuthorityLegs[i].checkType))
  {
    JsBlankMeans(p.version);
    JsBlankMeans(p.providerType);
    JsBlankMeans(p.identityConsistencyLeg.checkType);
    NoBlankSources(p);
    NoBlankTypes(p.requiredDocumentLegs);
    NoBlankTypes(p.currentAuthorityLegs);
    var required, current := CheckTypes(p.requiredDocumentLegs), CheckTypes(p.currentAuthorityLegs);
    assert forall t :: t in required + current <==> t in required || t in current;
  }

  lemma SpacesAreBlank(s: string)
    ensures SqlBlank(s) ==> JsBlank(s)
  {
  }

  lemma BlankEither(p: Policy)
    ensures WellFormed(p, JsBlank) <==> WellFormed(p, SqlBlank) && NoBlankIdentifier(p)
  {
    NoBlankMeans(p);
    forall s: string
      ensures SqlBlank(s) ==> JsBlank(s)
    {
      SpacesAreBlank(s);
    }
  }

  /** The application accepts exactly the well-formed policies, blank meaning any JavaScript white space. */
  lemma ApplicationAcceptsIff(p: Policy)
    ensures Accepted(p) <==> WellFormed(p, JsBlank)
  {
    ValidatorsAgree(p);
    DatabaseAcceptsIff(p);
    BlankEither(p);
  }
}
