/** Credential policies and the two validators that accept them: the application's
    `validateCredentialTierPolicy` and the one inlined in `finalize_verification_case`. */
module CredentialPolicy {
  import opened Sequences
  import opened Text

  datatype EvidenceKind = Issuer | Authority | ManualDocument | FormatValidation | LlmAdvisory

  datatype Source = Source(sourceId: string, evidenceKind: EvidenceKind)

  datatype Leg = Leg(checkType: string, allowedSourceIds: seq<string>)

  datatype Policy = Policy(
    version: string,
    providerType: string,
    sources: seq<Source>,
    requiredDocumentLegs: seq<Leg>,
    identityConsistencyLeg: Leg,
    currentAuthorityLegs: seq<Leg>,
    currentAuthorityFreshnessMs: int
  )

  const MAX_CREDENTIAL_FRESHNESS_MS := 100 * 366 * 24 * 60 * 60 * 1000

  function DocumentLegs(p: Policy): seq<Leg> {
    p.requiredDocumentLegs + [p.identityConsistencyLeg]
  }

  function AllLegs(p: Policy): seq<Leg> {
    DocumentLegs(p) + p.currentAuthorityLegs
  }

  // ---- Identifiers: JavaScript's trim() strips every white-space character, btrim() only U+0020 ----

  predicate TrimsToEmpty(s: string) {
    forall i :: 0 <= i < |s| ==> IsJsWhitespace(s[i])
  }

  predicate BtrimsToEmpty(s: string) {
    forall i :: 0 <= i < |s| ==> s[i] == ' '
  }

  function SourceIds(p: Policy): seq<string> {
    MapSeq(p.sources, (s: Source) => s.sourceId)
  }

  function CheckTypes(legs: seq<Leg>): seq<string> {
    MapSeq(legs, (leg: Leg) => leg.checkType)
  }

  /** `new Map(policy.sources.map((source) => [source.sourceId, source]))`: the last entry wins. */
  function SourceMap(sources: seq<Source>): map<string, Source> {
    if sources == [] then map[]
    else SourceMap(sources[..|sources| - 1])[sources[|sources| - 1].sourceId := sources[|sources| - 1]]
  }

  // ---- The application's validator ----

  datatype PolicyError =
    | BlankVersionOrProviderType
    | InvalidFreshness
    | EmptyOrBlankValues
    | DuplicateValues
    | IdentityLegMissing
    | UndeclaredSource
    | NonTierSource
    | AuthoritySourceRequired
    | IdentityLegNotRequired
    | IdentitySourcesNotSubset
    | AuthorityLegsNotDisjoint

  function RequireUniqueNonEmpty(values: seq<string>): (r: Result<(), PolicyError>)
    ensures r.Ok? <==> UniqueNonEmpty(values)
  {
    if values == [] || exists v :: v in values && TrimsToEmpty(v) then Err(EmptyOrBlankValues)
    else if !Distinct(values) then Err(DuplicateValues)
    else Ok(())
  }

  predicate UniqueNonEmpty(values: seq<string>) {
    values != [] && (forall v :: v in values ==> !TrimsToEmpty(v)) && Distinct(values)
  }

  /** The loop over every leg: unique non-empty sources, each of them declared. */
  function CheckLegSources(legs: seq<Leg>, sources: map<string, Source>): (r: Result<(), PolicyError>)
    ensures r.Ok? <==> LegSourcesOk(legs, sources)
  {
    if legs == [] then Ok(())
    else
      var _ :- RequireUniqueNonEmpty(legs[0].allowedSourceIds);
      var _ :- Require(forall id :: id in legs[0].allowedSourceIds ==> id in sources, UndeclaredSource);
      CheckLegSources(legs[1..], sources)
  }

  predicate IsNonTier(kind: EvidenceKind) {
    kind == FormatValidation || kind == LlmAdvisory
  }

  /** `validateCredentialTierPolicy`: the first requirement that fails is the error thrown. */
  function ValidateCredentialTierPolicy(p: Policy): Result<(), PolicyError> {
    var _ :- Require(!TrimsToEmpty(p.version) && !TrimsToEmpty(p.providerType), BlankVersionOrProviderType);
    var _ :- Require(0 < p.currentAuthorityFreshnessMs <= MAX_CREDENTIAL_FRESHNESS_MS, InvalidFreshness);
    var _ :- RequireUniqueNonEmpty(SourceIds(p));
    var _ :- RequireUniqueNonEmpty(CheckTypes(p.requiredDocumentLegs));
    var _ :- RequireUniqueNonEmpty(CheckTypes(p.currentAuthorityLegs));
    var _ :- Require(!TrimsToEmpty(p.identityConsistencyLeg.checkType), IdentityLegMissing);
    var sources := SourceMap(p.sources);
    var _ :- CheckLegSources(AllLegs(p), sources);
    var _ :- Require(DocumentKindsOk(p, sources), NonTierSource);
    var _ :- Require(AuthorityKindsOk(p, sources), AuthoritySourceRequired);
    var _ :- Require(HasIdentityLeg(p), IdentityLegNotRequired);
    var required := FindLeg(p.requiredDocumentLegs, p.identityConsistencyLeg.checkType);
    var _ :- Require(SubsetOf(p.identityConsistencyLeg.allowedSourceIds, required.allowedSourceIds),
                     IdentitySourcesNotSubset);
    Require(AuthorityDisjoint(p), AuthorityLegsNotDisjoint)
  }

  predicate LegSourcesOk(legs: seq<Leg>, sources: map<string, Source>) {
    forall leg :: leg in legs ==>
                    UniqueNonEmpty(leg.allowedSourceIds) &&
                    forall id :: id in leg.allowedSourceIds ==> id in sources
  }

  predicate DocumentKindsOk(p: Policy, sources: map<string, Source>) {
    forall leg, id :: leg in DocumentLegs(p) && id in leg.allowedSourceIds && id in sources
                      ==> !IsNonTier(sources[id].evidenceKind)
  }

  predicate AuthorityKindsOk(p: Policy, sources: map<string, Source>) {
    forall leg, id :: leg in p.currentAuthorityLegs && id in leg.allowedSourceIds
                      ==> id in sources && sources[id].evidenceKind == Authority
  }

  predicate HasIdentityLeg(p: Policy) {
    exists leg :: leg in p.requiredDocumentLegs && leg.checkType == p.identityConsistencyLeg.checkType
  }

  predicate AuthorityDisjoint(p: Policy) {
    forall leg, other :: leg in p.currentAuthorityLegs && other in p.requiredDocumentLegs
                         ==> leg.checkType != other.checkType
  }

  predicate SubsetOf(ids: seq<string>, allowed: seq<string>) {
    forall id :: id in ids ==> id in allowed
  }

  /** `requiredDocumentLegs.find(...)`: the first leg of that check type. */
  function FindLeg(legs: seq<Leg>, checkType: string): (leg: Leg)
    requires exists l :: l in legs && l.checkType == checkType
    ensures leg in legs && leg.checkType == checkType
  {
    if legs[0].checkType == checkType then legs[0] else FindLeg(legs[1..], checkType)
  }

  predicate Accepted(p: Policy) {
    ValidateCredentialTierPolicy(p).Ok?
  }

  // ---- The database's validator, with the CHECK constraints of credential_policy ----

  predicate IdentifiersOk(p: Policy) {
    && (forall s :: s in p.sources ==> !BtrimsToEmpty(s.sourceId))
    && Distinct(SourceIds(p))
    && (forall leg :: leg in p.requiredDocumentLegs ==> !BtrimsToEmpty(leg.checkType))
    && Distinct(CheckTypes(p.requiredDocumentLegs))
    && (forall leg :: leg in p.currentAuthorityLegs ==> !BtrimsToEmpty(leg.checkType))
    && Distinct(CheckTypes(p.currentAuthorityLegs))
    && !BtrimsToEmpty(p.identityConsistencyLeg.checkType)
  }

  /** Some required leg has the identity leg's check type and every one of its sources. */
  predicate IdentityReusesRequiredLeg(p: Policy) {
    exists leg :: leg in p.requiredDocumentLegs && leg.checkType == p.identityConsistencyLeg.checkType &&
                  SubsetOf(p.identityConsistencyLeg.allowedSourceIds, leg.allowedSourceIds)
  }

  predicate AuthoritySeparate(p: Policy) {
    forall leg :: leg in p.currentAuthorityLegs ==>
                    leg.checkType != p.identityConsistencyLeg.checkType &&
                    forall other :: other in p.requiredDocumentLegs ==> other.checkType != leg.checkType
  }

  predicate SourceMappingOk(p: Policy) {
    forall leg :: leg in AllLegs(p) ==>
                    leg.allowedSourceIds != [] && Distinct(leg.allowedSourceIds) &&
                    forall id :: id in leg.allowedSourceIds ==> !BtrimsToEmpty(id) && Declares(p.sources, id)
  }

  predicate Declares(sources: seq<Source>, id: string) {
    exists s :: s in sources && s.sourceId == id
  }

  predicate SourcesContribute(p: Policy) {
    && (forall leg, id, s :: leg in DocumentLegs(p) && id in leg.allowedSourceIds && s in p.sources && s.sourceId == id
                             ==> !IsNonTier(s.evidenceKind))
    && (forall leg, id, s :: leg in p.currentAuthorityLegs && id in leg.allowedSourceIds && s in p.sources &&
                             s.sourceId == id
                             ==> s.evidenceKind == Authority)
  }

  predicate AcceptedByDatabase(p: Policy) {
    && !BtrimsToEmpty(p.version) && !BtrimsToEmpty(p.providerType)
    && p.sources != [] && p.requiredDocumentLegs != [] && p.currentAuthorityLegs != []
    && 1 <= p.currentAuthorityFreshnessMs <= 3162240000000
    && IdentifiersOk(p)
    && IdentityReusesRequiredLeg(p) && AuthoritySeparate(p)
    && SourceMappingOk(p) && SourcesContribute(p)
  }

  // ---- What decisions rely on ----

  ghost function KindFor(p: Policy, leg: Leg, id: string): (kind: EvidenceKind)
    requires DeclaresAll(p) && leg in AllLegs(p) && id in leg.allowedSourceIds
    ensures Source(id, kind) in p.sources
  {
    assert Declares(p.sources, id);
    var s :| s in p.sources && s.sourceId == id;
    s.evidenceKind
  }

  ghost predicate DeclaresAll(p: Policy) {
    forall leg, id :: leg in AllLegs(p) && id in leg.allowedSourceIds ==> Declares(p.sources, id)
  }

  /** All that the meaning of a decision needs of a policy; both validators guarantee it. */
  ghost predicate Coherent(p: Policy) {
    && p.requiredDocumentLegs != [] && p.currentAuthorityLegs != [] && p.currentAuthorityFreshnessMs > 0
    && Distinct(SourceIds(p)) && DeclaresAll(p) && SourcesContribute(p)
  }

  lemma AcceptedIsCoherent(p: Policy)
    requires AcceptedByDatabase(p) || Accepted(p)
    ensures Coherent(p)
  {
    if Accepted(p) { ApplicationImpliesDatabase(p); }
  }

  lemma LegsAreAll(p: Policy)
    ensures forall leg :: leg in AllLegs(p) <==>
                          leg in p.requiredDocumentLegs || leg == p.identityConsistencyLeg ||
                          leg in p.currentAuthorityLegs
  {
    assert AllLegs(p)[|p.requiredDocumentLegs|] == p.identityConsistencyLeg;
  }

  // ---- How the two relate ----

  ghost predicate NoBlankIdentifier(p: Policy) {
    && !TrimsToEmpty(p.version) && !TrimsToEmpty(p.providerType)
    && !TrimsToEmpty(p.identityConsistencyLeg.checkType)
    && (forall id :: id in SourceIds(p) ==> !TrimsToEmpty(id))
    && (forall t :: t in CheckTypes(p.requiredDocumentLegs) + CheckTypes(p.currentAuthorityLegs) ==> !TrimsToEmpty(t))
  }

  lemma {:induction false} SourceMapMeans(sources: seq<Source>, id: string)
    ensures id in SourceMap(sources) <==> Declares(sources, id)
    ensures id in SourceMap(sources) ==> SourceMap(sources)[id] in sources && SourceMap(sources)[id].sourceId == id
  {
    if sources == [] {
    } else {
      var last := |sources| - 1;
      SourceMapMeans(sources[..last], id);
      assert sources == sources[..last] + [sources[last]];
      DeclaresLast(sources[..last], sources[last], id);
    }
  }

  lemma DeclaresLast(sources: seq<Source>, last: Source, id: string)
    ensures Declares(sources + [last], id) <==> Declares(sources, id) || last.sourceId == id
  {
    if Declares(sources, id) {
      var s :| s in sources && s.sourceId == id;
      assert s in sources + [last];
    }
    if last.sourceId == id { assert last in sources + [last]; }
  }

  lemma UniqueSource(p: Policy, s: Source, t: Source)
    requires Distinct(SourceIds(p)) && s in p.sources && t in p.sources && s.sourceId == t.sourceId
    ensures s == t
  {
    var i :| 0 <= i < |p.sources| && p.sources[i] == s;
    var j :| 0 <= j < |p.sources| && p.sources[j] == t;
    assert SourceIds(p)[i] == SourceIds(p)[j];
  }

  lemma UniqueLeg(legs: seq<Leg>, a: Leg, b: Leg)
    requires Distinct(CheckTypes(legs)) && a in legs && b in legs && a.checkType == b.checkType
    ensures a == b
  {
    var i :| 0 <= i < |legs| && legs[i] == a;
    var j :| 0 <= j < |legs| && legs[j] == b;
    assert CheckTypes(legs)[i] == CheckTypes(legs)[j];
  }

  lemma SourceIdIsListed(p: Policy, id: string)
    ensures id in SourceIds(p) <==> Declares(p.sources, id)
  {
    if id in SourceIds(p) {
      var i :| 0 <= i < |p.sources| && SourceIds(p)[i] == id;
      assert p.sources[i] in p.sources;
    }
    if Declares(p.sources, id) {
      var s :| s in p.sources && s.sourceId == id;
      var i :| 0 <= i < |p.sources| && p.sources[i] == s;
      assert SourceIds(p)[i] == id;
    }
  }

  lemma CheckTypeIsListed(legs: seq<Leg>, t: string)
    ensures t in CheckTypes(legs) <==> exists leg :: leg in legs && leg.checkType == t
  {
    if t in CheckTypes(legs) {
      var i :| 0 <= i < |legs| && CheckTypes(legs)[i] == t;
      assert legs[i] in legs;
    }
    if leg :| leg in legs && leg.checkType == t {
      var i :| 0 <= i < |legs| && legs[i] == leg;
      assert CheckTypes(legs)[i] == t;
    }
  }

  lemma SpaceOnlyTrims(s: string)
    ensures BtrimsToEmpty(s) ==> TrimsToEmpty(s)
  {
  }

  /** The kind the application looks up is the kind of the one declared source. */
  lemma SourceMapAgrees(p: Policy, s: Source)
    requires Distinct(SourceIds(p)) && s in p.sources
    ensures s.sourceId in SourceMap(p.sources) && SourceMap(p.sources)[s.sourceId] == s
  {
    SourceMapMeans(p.sources, s.sourceId);
    UniqueSource(p, SourceMap(p.sources)[s.sourceId], s);
  }

  /** Whatever the application accepts the database accepts; the converse needs identifiers that are not
      blank to JavaScript, and nothing else. */
  lemma ValidatorsAgree(p: Policy)
    ensures Accepted(p) <==> AcceptedByDatabase(p) && NoBlankIdentifier(p)
  {
    if Accepted(p) { ApplicationImpliesDatabase(p); }
    if AcceptedByDatabase(p) && NoBlankIdentifier(p) { DatabaseImpliesApplication(p); }
  }

  /** The application's requirements, gathered out of their order of checking. */
  ghost predicate Requirements(p: Policy, sources: map<string, Source>) {
    && !TrimsToEmpty(p.version) && !TrimsToEmpty(p.providerType)
    && 0 < p.currentAuthorityFreshnessMs <= MAX_CREDENTIAL_FRESHNESS_MS
    && UniqueNonEmpty(SourceIds(p))
    && UniqueNonEmpty(CheckTypes(p.requiredDocumentLegs))
    && UniqueNonEmpty(CheckTypes(p.currentAuthorityLegs))
    && !TrimsToEmpty(p.identityConsistencyLeg.checkType)
    && LegSourcesOk(AllLegs(p), sources)
    && DocumentKindsOk(p, sources) && AuthorityKindsOk(p, sources)
    && IdentityReusesRequiredLeg(p)
    && AuthorityDisjoint(p)
  }

  lemma AcceptedMeans(p: Policy)
    ensures Accepted(p) <==> Requirements(p, SourceMap(p.sources))
  {
    if Distinct(CheckTypes(p.requiredDocumentLegs)) { IdentityLegIsUnique(p); }
  }

  lemma IdentityLegIsUnique(p: Policy)
    requires Distinct(CheckTypes(p.requiredDocumentLegs))
    ensures IdentityReusesRequiredLeg(p) <==>
            HasIdentityLeg(p) &&
            SubsetOf(p.identityConsistencyLeg.allowedSourceIds,
                     FindLeg(p.requiredDocumentLegs, p.identityConsistencyLeg.checkType).allowedSourceIds)
  {
    var legs, t := p.requiredDocumentLegs, p.identityConsistencyLeg.checkType;
    if HasIdentityLeg(p) {
      forall leg | leg in legs && leg.checkType == t
        ensures leg == FindLeg(legs, t)
      {
        UniqueLeg(legs, leg, FindLeg(legs, t));
      }
    }
  }

  lemma ApplicationImpliesDatabase(p: Policy)
    requires Accepted(p)
    ensures AcceptedByDatabase(p) && NoBlankIdentifier(p)
  {
    AcceptedMeans(p);
    IdentifiersAgree(p);
    LegsAgree(p);
    KindsAgree(p);
    var legs := p.requiredDocumentLegs;
    var reused :| reused in legs && reused.checkType == p.identityConsistencyLeg.checkType;
    assert AuthoritySeparate(p);
  }

  lemma DatabaseImpliesApplication(p: Policy)
    requires AcceptedByDatabase(p) && NoBlankIdentifier(p)
    ensures Accepted(p)
  {
    AcceptedMeans(p);
    IdentifiersAgree(p);
    LegsAgree(p);
    KindsAgree(p);
    assert AuthorityDisjoint(p);
  }

  lemma IdentifiersAgree(p: Policy)
    ensures UniqueNonEmpty(SourceIds(p)) && UniqueNonEmpty(CheckTypes(p.requiredDocumentLegs)) &&
            UniqueNonEmpty(CheckTypes(p.currentAuthorityLegs)) && !TrimsToEmpty(p.version) &&
            !TrimsToEmpty(p.providerType) && !TrimsToEmpty(p.identityConsistencyLeg.checkType)
            <==>
            IdentifiersOk(p) && NoBlankIdentifier(p) && p.sources != [] && p.requiredDocumentLegs != [] &&
            p.currentAuthorityLegs != []
  {
    ListsAgree(p.requiredDocumentLegs);
    ListsAgree(p.currentAuthorityLegs);
    forall s | s in p.sources
      ensures s.sourceId in SourceIds(p)
    {
      SourceIdIsListed(p, s.sourceId);
    }
    assert |SourceIds(p)| == |p.sources|;
    var types := CheckTypes(p.requiredDocumentLegs) + CheckTypes(p.currentAuthorityLegs);
    assert forall t :: t in types <==>
           t in CheckTypes(p.requiredDocumentLegs) || t in CheckTypes(p.currentAuthorityLegs);
    SpaceOnlyTrims(p.identityConsistencyLeg.checkType);
  }

  lemma ListsAgree(legs: seq<Leg>)
    ensures |CheckTypes(legs)| == |legs|
    ensures (forall t :: t in CheckTypes(legs) ==> !TrimsToEmpty(t)) ==>
              forall leg :: leg in legs ==> !BtrimsToEmpty(leg.checkType)
  {
    forall leg | leg in legs
      ensures leg.checkType in CheckTypes(legs)
    {
      CheckTypeIsListed(legs, leg.checkType);
    }
  }

  lemma LegsAgree(p: Policy)
    requires NoBlankIdentifier(p)
    ensures LegSourcesOk(AllLegs(p), SourceMap(p.sources)) <==> SourceMappingOk(p)
  {
    forall id: string
      ensures id in SourceMap(p.sources) <==> Declares(p.sources, id)
      ensures Declares(p.sources, id) ==> !TrimsToEmpty(id)
    {
      SourceMapMeans(p.sources, id);
      SourceIdIsListed(p, id);
    }
  }

  lemma KindsAgree(p: Policy)
    requires Distinct(SourceIds(p)) && SourceMappingOk(p)
    ensures DocumentKindsOk(p, SourceMap(p.sources)) && AuthorityKindsOk(p, SourceMap(p.sources))
            <==> SourcesContribute(p)
  {
    var sources := SourceMap(p.sources);
    forall s | s in p.sources
      ensures s.sourceId in sources && sources[s.sourceId] == s
    {
      SourceMapAgrees(p, s);
    }
    forall id | id in sources
      ensures sources[id] in p.sources && sources[id].sourceId == id
    {
      SourceMapMeans(p.sources, id);
    }
    forall leg, id | leg in p.currentAuthorityLegs && id in leg.allowedSourceIds
      ensures id in sources
    {
      assert leg in AllLegs(p);
      SourceMapMeans(p.sources, id);
    }
  }

  /** The gap is real: a policy whose provider type is one tab passes in the database and is refused by
      the application. */
  lemma TabIsBlankOnlyToTheApplication(p: Policy)
    requires AcceptedByDatabase(p)
    ensures AcceptedByDatabase(p.(providerType := "\t")) && !Accepted(p.(providerType := "\t"))
  {
    var q := p.(providerType := "\t");
    assert "\t"[0] == '\t' && TrimsToEmpty("\t");
    assert SourceIds(q) == SourceIds(p) && DocumentLegs(q) == DocumentLegs(p) && AllLegs(q) == AllLegs(p);
    assert IdentityReusesRequiredLeg(q) by {
      var leg :| leg in p.requiredDocumentLegs && leg.checkType == p.identityConsistencyLeg.checkType &&
                 SubsetOf(p.identityConsistencyLeg.allowedSourceIds, leg.allowedSourceIds);
      assert leg in q.requiredDocumentLegs;
    }
    assert SourceMappingOk(q) && SourcesContribute(q) && AuthoritySeparate(q);
  }
}
