/** Provider tiers as stored: review cases, finalisation, and the worker that degrades lapsed tiers. */
module CredentialStore {
  import opened Sequences
  import opened CredentialPolicy
  import opened TierDecision
  import TierPreflight
  import TierDatabase

  datatype ProviderRow = ProviderRow(providerType: string, tier: Tier, decidedAt: Option<int>, expiresAt: Option<int>)

  datatype CaseStatus = ReviewRequired | Decided | Superseded

  datatype CaseRow = CaseRow(providerId: int, status: CaseStatus, outcome: Option<Decision>, decidedAt: Option<int>)

  /** The audit events that record a change of tier. */
  datatype TierEvent =
    | TierDecided(providerId: int, caseId: int, decision: Decision, at: int)
    | TierDegraded(providerId: int, at: int)

  datatype State = State(
    providers: map<int, ProviderRow>,
    cases: map<int, CaseRow>,
    checks: map<int, seq<Check>>,
    policies: map<string, Policy>,
    log: seq<TierEvent>
  )

  // ---- finalize_verification_case ----

  datatype FinalizeError =
    | RequestIdRequired
    | OutsideRequestWindow
    | NotAuthorized
    | CaseNotFound
    | CaseNotActive
    | ProviderNotFound
    | NoActivePolicy
    | PolicyVersionChanged
    | PolicyRejected

  const WINDOW_MS := 5 * 60 * 1000

  function ChecksOf(s: State, caseId: int): seq<Check> {
    if caseId in s.checks then s.checks[caseId] else []
  }

  /** A decision request: who asks is reduced to whether the ADMIN grant exists, the clock to `txTime`. */
  datatype Request = Request(caseId: int, providerId: int, policyVersion: string, at: int, txTime: int, granted: bool,
                             requestId: Option<string>)

  /** `p_request_id IS NULL OR btrim(p_request_id) = ''` */
  predicate Missing(requestId: Option<string>) {
    requestId.None? || BtrimsToEmpty(requestId.value)
  }

  /** The two UPDATEs and the audit rows that record a decision. */
  function Record(s: State, q: Request, d: Decision): State
    requires q.caseId in s.cases && q.providerId in s.providers
  {
    s.(cases := s.cases[q.caseId := s.cases[q.caseId].(status := Decided, outcome := Some(d), decidedAt := Some(q.at))],
       providers := s.providers[q.providerId := s.providers[q.providerId].(tier := d.tier, decidedAt := Some(q.at),
                                                                           expiresAt := d.tierExpiresAt)],
       log := s.log + [TierDecided(q.providerId, q.caseId, d, q.at)])
  }

  function DecisionFor(s: State, q: Request, p: Policy): Decision {
    TierDatabase.FinalizeDecision(ChecksOf(s, q.caseId), p, q.at)
  }

  function FinalizeVerificationCase(s: State, q: Request): Result<State, FinalizeError> {
    if Missing(q.requestId) then Err(RequestIdRequired)
    else if q.at < q.txTime - WINDOW_MS || q.at > q.txTime + WINDOW_MS then Err(OutsideRequestWindow)
    else if !q.granted then Err(NotAuthorized)
    else if q.caseId !in s.cases || s.cases[q.caseId].providerId != q.providerId then Err(CaseNotFound)
    else if s.cases[q.caseId].status != ReviewRequired || s.cases[q.caseId].outcome.Some? then Err(CaseNotActive)
    else if q.providerId !in s.providers then Err(ProviderNotFound)
    else if s.providers[q.providerId].providerType !in s.policies then Err(NoActivePolicy)
    else
      var p := s.policies[s.providers[q.providerId].providerType];
      if p.version != q.policyVersion then Err(PolicyVersionChanged)
      else if !AcceptedByDatabase(p) then Err(PolicyRejected)
      else Ok(Record(s, q, DecisionFor(s, q, p)))
  }

  // ---- degrade_expired_provider_tiers ----

  predicate Stale(row: ProviderRow, now: int) {
    row.tier == FullyVerified &&
    (row.decidedAt.None? || row.expiresAt.None? || row.expiresAt.value <= row.decidedAt.value ||
     row.expiresAt.value <= now)
  }

  /** ORDER BY tier_expires_at NULLS FIRST, id */
  predicate Precedes(providers: map<int, ProviderRow>, a: int, b: int) {
    var x, y := ExpiryOf(providers, a), ExpiryOf(providers, b);
    if x == y then a < b else x.None? || (y.Some? && x.value < y.value)
  }

  function ExpiryOf(providers: map<int, ProviderRow>, id: int): Option<int> {
    if id in providers then providers[id].expiresAt else None
  }

  function StaleRows(providers: map<int, ProviderRow>, now: int, locked: set<int>): set<int> {
    set id | id in providers && Stale(providers[id], now) && id !in locked
  }

  function DegradeOne(s: State, id: int, now: int): State
    requires id in s.providers
  {
    s.(providers := s.providers[id := s.providers[id].(tier := DocumentVerified, decidedAt := Some(now),
                                                       expiresAt := None)],
       log := s.log + [TierDegraded(id, now)])
  }

  function DegradeAll(s: State, ids: seq<int>, now: int): (r: State)
    requires forall id :: id in ids ==> id in s.providers
    ensures r.providers.Keys == s.providers.Keys
    decreases |ids|
  {
    if ids == [] then s
    else DegradeOne(DegradeAll(s, ids[..|ids| - 1], now), ids[|ids| - 1], now)
  }

  /** What `FOR UPDATE SKIP LOCKED LIMIT n` over the ordered query yields: the first n stale rows not locked. */
  ghost predicate IsBatch(s: State, now: int, locked: set<int>, n: nat, ids: seq<int>) {
    var stale := StaleRows(s.providers, now, locked);
    && (forall id :: id in ids ==> id in stale)
    && (forall i, j :: 0 <= i < j < |ids| ==> Precedes(s.providers, ids[i], ids[j]))
    && (forall id, other :: id in ids && other in stale && other !in ids ==> Precedes(s.providers, id, other))
    && |ids| == if |stale| < n then |stale| else n
  }

  // ---- The expiry-aware read ----

  datatype TierView = TierView(tier: Tier, expiresAt: Option<int>)

  function ReadView(row: ProviderRow, now: int): TierView {
    if row.tier == FullyVerified && (row.expiresAt.None? || row.expiresAt.value <= now)
    then TierView(DocumentVerified, None)
    else TierView(row.tier, row.expiresAt)
  }

  // ---- Invariant ----

  /** provider_fully_verified_expiry_check; only a full tier has an expiry. */
  predicate RowOk(row: ProviderRow) {
    if row.tier == FullyVerified then
      row.decidedAt.Some? && row.expiresAt.Some? && row.expiresAt.value > row.decidedAt.value
    else row.expiresAt.None?
  }

  predicate OutcomeOk(d: Decision, at: int) {
    d.reasons != [] &&
    (if d.tier == FullyVerified then d.tierExpiresAt.Some? && d.tierExpiresAt.value > at else d.tierExpiresAt.None?)
  }

  /** verification_case_decision_shape_check */
  predicate CaseOk(row: CaseRow) {
    if row.status == Decided then
      row.outcome.Some? && row.decidedAt.Some? && OutcomeOk(row.outcome.value, row.decidedAt.value)
    else row.outcome.None? && row.decidedAt.None?
  }

  /** The tier columns of a provider as the log of tier events leaves them. */
  function Replay(log: seq<TierEvent>, id: int): (Tier, Option<int>, Option<int>) {
    if log == [] then (SelfDeclared, None, None)
    else
      var last := log[|log| - 1];
      if last.providerId != id then Replay(log[..|log| - 1], id)
      else if last.TierDecided? then (last.decision.tier, Some(last.at), last.decision.tierExpiresAt)
      else (DocumentVerified, Some(last.at), None)
  }

  /** A tier is degraded only while full, and only once its expiry has passed. */
  ghost predicate DegradedOnlyWhenLapsed(log: seq<TierEvent>) {
    forall i :: 0 <= i < |log| && log[i].TierDegraded? ==>
                  var (tier, _, expiresAt) := Replay(log[..i], log[i].providerId);
                  tier == FullyVerified && expiresAt.Some? && expiresAt.value <= log[i].at
  }

  /** A decided event repeats the outcome of its case. */
  ghost predicate DecisionsAreCases(s: State) {
    forall e :: e in s.log && e.TierDecided? ==>
                  e.caseId in s.cases &&
                  s.cases[e.caseId] == CaseRow(e.providerId, Decided, Some(e.decision), Some(e.at))
  }

  predicate ActiveFor(s: State, caseId: int, providerId: int) {
    caseId in s.cases && s.cases[caseId].providerId == providerId && s.cases[caseId].status == ReviewRequired
  }

  ghost predicate RowsOk(s: State) {
    && (forall id :: id in s.providers ==> RowOk(s.providers[id]))
    && (forall id :: id in s.cases ==> CaseOk(s.cases[id]))
    && (forall id :: id in s.checks ==> WellFormed(s.checks[id]))
  }

  /** verification_case_one_active_review */
  ghost predicate OneActiveReview(s: State) {
    forall c, d :: c in s.cases && d in s.cases && ActiveFor(s, c, s.cases[d].providerId) &&
                   s.cases[d].status == ReviewRequired
                   ==> c == d
  }

  ghost predicate LogReplays(s: State) {
    && (forall id :: id in s.providers ==>
                       Replay(s.log, id) ==
                         (s.providers[id].tier, s.providers[id].decidedAt, s.providers[id].expiresAt))
    && (forall e :: e in s.log ==> e.providerId in s.providers)
  }

  ghost predicate Valid(s: State) {
    RowsOk(s) && OneActiveReview(s) && LogReplays(s) && DegradedOnlyWhenLapsed(s.log) && DecisionsAreCases(s)
  }

  // ---- Every operation keeps the invariant ----

  lemma ReplayAppend(log: seq<TierEvent>, e: TierEvent, id: int)
    ensures e.providerId != id ==> Replay(log + [e], id) == Replay(log, id)
  {
    assert (log + [e])[..|log|] == log;
  }

  lemma AppendKeepsDegradations(log: seq<TierEvent>, e: TierEvent)
    requires DegradedOnlyWhenLapsed(log)
    requires e.TierDegraded? ==>
               var (tier, _, expiresAt) := Replay(log, e.providerId);
               tier == FullyVerified && expiresAt.Some? && expiresAt.value <= e.at
    ensures DegradedOnlyWhenLapsed(log + [e])
  {
    assert (log + [e])[..|log|] == log;
    forall i | 0 <= i < |log|
      ensures (log + [e])[i] == log[i] && (log + [e])[..i] == log[..i]
    {
    }
  }

  lemma DecisionFitsTheConstraints(checks: seq<Check>, p: Policy, at: int)
    requires WellFormed(checks) && AcceptedByDatabase(p)
    ensures OutcomeOk(TierDatabase.FinalizeDecision(checks, p, at), at)
  {
    AcceptedIsCoherent(p);
    TierDatabase.DatabaseDecisionIsJustified(checks, p, at);
    var d := TierDatabase.FinalizeDecision(checks, p, at);
    if d.tier == FullyVerified { ExpiryIsInTheFuture(checks, p, at, d); }
  }

  /** Finalising writes rows that every CHECK constraint and trigger admits. */
  lemma RecordKeepsValid(s: State, q: Request, d: Decision)
    requires Valid(s) && OutcomeOk(d, q.at)
    requires ActiveFor(s, q.caseId, q.providerId) && q.providerId in s.providers
    ensures Valid(Record(s, q, d))
  {
    RecordKeepsRows(s, q, d);
    RecordKeepsLog(s, q, d);
    CasesStillDecided(s, q, d);
  }

  lemma RecordKeepsRows(s: State, q: Request, d: Decision)
    requires RowsOk(s) && OneActiveReview(s) && OutcomeOk(d, q.at)
    requires ActiveFor(s, q.caseId, q.providerId) && q.providerId in s.providers
    ensures RowsOk(Record(s, q, d)) && OneActiveReview(Record(s, q, d))
  {
  }

  lemma RecordKeepsLog(s: State, q: Request, d: Decision)
    requires LogReplays(s) && DegradedOnlyWhenLapsed(s.log)
    requires ActiveFor(s, q.caseId, q.providerId) && q.providerId in s.providers
    ensures LogReplays(Record(s, q, d)) && DegradedOnlyWhenLapsed(Record(s, q, d).log)
  {
    var e := TierDecided(q.providerId, q.caseId, d, q.at);
    AppendKeepsDegradations(s.log, e);
    LogStillReplays(s, Record(s, q, d), e);
  }

  lemma LogStillReplays(s: State, r: State, e: TierEvent)
    requires LogReplays(s) && e.providerId in s.providers && r.log == s.log + [e]
    requires r.providers.Keys == s.providers.Keys
    requires forall id :: id in s.providers && id != e.providerId ==> r.providers[id] == s.providers[id]
    requires var row := r.providers[e.providerId];
             (row.tier, row.decidedAt, row.expiresAt) ==
             if e.TierDecided? then (e.decision.tier, Some(e.at), e.decision.tierExpiresAt)
             else (DocumentVerified, Some(e.at), None)
    ensures LogReplays(r)
  {
    forall id | id in r.providers
      ensures Replay(r.log, id) == (r.providers[id].tier, r.providers[id].decidedAt, r.providers[id].expiresAt)
    {
      ReplayAppend(s.log, e, id);
    }
    assert forall f :: f in r.log ==> f in s.log || f == e;
  }

  lemma CasesStillDecided(s: State, q: Request, d: Decision)
    requires DecisionsAreCases(s) && ActiveFor(s, q.caseId, q.providerId) && q.providerId in s.providers
    ensures DecisionsAreCases(Record(s, q, d))
  {
    var r := Record(s, q, d);
    forall f | f in r.log && f.TierDecided?
      ensures f.caseId in r.cases && r.cases[f.caseId] == CaseRow(f.providerId, Decided, Some(f.decision), Some(f.at))
    {
      if f != r.log[|s.log|] { assert f in s.log; }
    }
  }

  lemma DegradeKeepsValid(s: State, id: int, now: int)
    requires Valid(s) && id in s.providers && Stale(s.providers[id], now)
    ensures Valid(DegradeOne(s, id, now))
  {
    var r, e := DegradeOne(s, id, now), TierDegraded(id, now);
    AppendKeepsDegradations(s.log, e);
    LogStillReplays(s, r, e);
    DegradingDecidesNothing(s, id, now);
  }

  lemma DegradingDecidesNothing(s: State, id: int, now: int)
    requires DecisionsAreCases(s) && id in s.providers
    ensures DecisionsAreCases(DegradeOne(s, id, now))
  {
    assert forall f :: f in DegradeOne(s, id, now).log && f.TierDecided? ==> f in s.log;
  }

  function Degradations(ids: seq<int>, now: int): seq<TierEvent> {
    MapSeq(ids, (id: int) => TierDegraded(id, now))
  }

  function Degraded(row: ProviderRow, now: int): ProviderRow {
    row.(tier := DocumentVerified, decidedAt := Some(now), expiresAt := None)
  }

  /** A batch degrades each of its rows, touches no other, and appends one event a row. */
  lemma {:induction false} DegradeAllMeans(s: State, ids: seq<int>, now: int)
    requires (forall id :: id in ids ==> id in s.providers) && Distinct(ids)
    ensures var r := DegradeAll(s, ids, now);
            && (forall id :: id in s.providers ==>
                               r.providers[id] == if id in ids then Degraded(s.providers[id], now) else s.providers[id])
            && r == s.(providers := r.providers, log := s.log + Degradations(ids, now))
  {
    if ids != [] {
      var n := |ids| - 1;
      var front := ids[..n];
      assert ids == front + [ids[n]];
      DegradeAllMeans(s, front, now);
      assert Degradations(ids, now) == Degradations(front, now) + [TierDegraded(ids[n], now)];
      assert s.log + Degradations(ids, now) == s.log + Degradations(front, now) + [TierDegraded(ids[n], now)];
    } else {
      assert s.log + Degradations(ids, now) == s.log;
    }
  }

  lemma {:induction false} DegradeAllKeepsValid(s: State, ids: seq<int>, now: int)
    requires Valid(s) && (forall id :: id in ids ==> id in s.providers && Stale(s.providers[id], now)) && Distinct(ids)
    ensures Valid(DegradeAll(s, ids, now))
  {
    if ids != [] {
      var n := |ids| - 1;
      var front := ids[..n];
      DegradeAllKeepsValid(s, front, now);
      DegradeAllMeans(s, front, now);
      assert ids[n] !in front;
      DegradeKeepsValid(DegradeAll(s, front, now), ids[n], now);
    }
  }

  /** Degrading what has lapsed is invisible to every expiry-aware read from then on. */
  lemma DegradingIsInvisible(s: State, ids: seq<int>, now: int, id: int, t: int)
    requires Valid(s) && (forall i :: i in ids ==> i in s.providers && Stale(s.providers[i], now)) && Distinct(ids)
    requires id in s.providers && t >= now
    ensures ReadView(DegradeAll(s, ids, now).providers[id], t) == ReadView(s.providers[id], t)
  {
    DegradeAllMeans(s, ids, now);
    assert RowOk(s.providers[id]);
  }

  // ---- Where a tier comes from ----

  /** The position of a provider's last tier event, or -1. */
  function LastEvent(log: seq<TierEvent>, id: int): (k: int)
    ensures -1 <= k < |log| && (k >= 0 ==> log[k].providerId == id)
    ensures forall j :: k < j < |log| ==> log[j].providerId != id
  {
    if log == [] then -1
    else if log[|log| - 1].providerId == id then |log| - 1
    else LastEvent(log[..|log| - 1], id)
  }

  /** The position of the last decision about a provider, or -1. */
  function LastDecision(log: seq<TierEvent>, id: int): (i: int)
    ensures -1 <= i < |log| && (i >= 0 ==> log[i].TierDecided? && log[i].providerId == id)
    ensures forall j :: i < j < |log| && log[j].providerId == id ==> log[j].TierDegraded?
  {
    if log == [] then -1
    else if log[|log| - 1].TierDecided? && log[|log| - 1].providerId == id then |log| - 1
    else LastDecision(log[..|log| - 1], id)
  }

  /** The tier columns are the initial ones, or the last decision's, or DOCUMENT_VERIFIED since the one
      degradation after it, which came no earlier than the expiry that decision had set. */
  ghost predicate Traces(log: seq<TierEvent>, id: int, tier: Tier, decidedAt: Option<int>, expiresAt: Option<int>) {
    var i, k := LastDecision(log, id), LastEvent(log, id);
    if i < 0 then
      k < 0 && tier == SelfDeclared && decidedAt == None && expiresAt == None
    else if k == i then
      tier == log[i].decision.tier && decidedAt == Some(log[i].at) && expiresAt == log[i].decision.tierExpiresAt
    else
      && i < k && log[k].TierDegraded? && LastEvent(log[..k], id) == i
      && tier == DocumentVerified && decidedAt == Some(log[k].at) && expiresAt == None
      && log[i].decision.tier == FullyVerified && log[i].decision.tierExpiresAt.Some?
      && log[i].decision.tierExpiresAt.value <= log[k].at
  }

  lemma {:induction false} ReplayTraces(log: seq<TierEvent>, id: int)
    requires DegradedOnlyWhenLapsed(log)
    ensures var (tier, decidedAt, expiresAt) := Replay(log, id); Traces(log, id, tier, decidedAt, expiresAt)
  {
    if log != [] {
      var n := |log| - 1;
      var front := log[..n];
      assert forall i :: 0 <= i <= n ==> front[..i] == log[..i];
      ReplayTraces(front, id);
      if log[n].TierDegraded? && log[n].providerId == id {
        assert LastEvent(front, id) == LastDecision(front, id);
      }
    }
  }

  // ---- Runs ----

  datatype Step =
    | Register(id: int, providerType: string)
    | OpenReview(providerId: int, newCaseId: int)
    | RecordCheck(caseId: int, check: Check)
    | Finalize(request: Request)
    | Degrade(ids: seq<int>, n: nat, locked: set<int>, now: int)
    | ActivatePolicy(policy: Policy)
    | RetirePolicy(providerType: string)

  /** An identity column yields a sequence number no earlier check has, and text holds no U+0000. */
  predicate Recordable(s: State, caseId: int, c: Check) {
    '\0' !in c.checkType && forall d :: d in ChecksOf(s, caseId) ==> d.recordedSequence < c.recordedSequence
  }

  predicate HasActiveReview(s: State, providerId: int) {
    exists c :: c in s.cases && ActiveFor(s, c, providerId)
  }

  /** The step happens, or changes nothing. */
  ghost function Apply(s: State, step: Step): State {
    match step
    case Register(id, providerType) =>
      if id in s.providers then s
      else s.(providers := s.providers[id := ProviderRow(providerType, SelfDeclared, None, None)])
    case OpenReview(providerId, newCaseId) =>
      if providerId !in s.providers || newCaseId in s.cases || HasActiveReview(s, providerId) then s
      else s.(cases := s.cases[newCaseId := CaseRow(providerId, ReviewRequired, None, None)])
    case RecordCheck(caseId, check) =>
      if caseId in s.cases && s.cases[caseId].status == ReviewRequired && Recordable(s, caseId, check)
      then s.(checks := s.checks[caseId := ChecksOf(s, caseId) + [check]])
      else s
    case Finalize(request) =>
      var r := FinalizeVerificationCase(s, request);
      if r.Ok? then r.value else s
    case Degrade(ids, n, locked, now) =>
      if IsBatch(s, now, locked, n, ids) then DegradeAll(s, ids, now) else s
    case ActivatePolicy(p) =>
      if BtrimsToEmpty(p.providerType) || BtrimsToEmpty(p.version) then s
      else s.(policies := s.policies[p.providerType := p])
    case RetirePolicy(providerType) => s.(policies := s.policies - {providerType})
  }

  ghost function Run(s: State, steps: seq<Step>): State {
    if steps == [] then s else Apply(Run(s, steps[..|steps| - 1]), steps[|steps| - 1])
  }

  lemma BatchIsDistinct(s: State, now: int, locked: set<int>, n: nat, ids: seq<int>)
    requires IsBatch(s, now, locked, n, ids)
    ensures Distinct(ids)
  {
    forall i, j | 0 <= i < j < |ids|
      ensures ids[i] != ids[j]
    {
      assert Precedes(s.providers, ids[i], ids[j]);
    }
  }

  lemma {:induction false} NoEventsReplaysInitial(log: seq<TierEvent>, id: int)
    requires forall e :: e in log ==> e.providerId != id
    ensures Replay(log, id) == (SelfDeclared, None, None)
  {
    if log != [] { NoEventsReplaysInitial(log[..|log| - 1], id); }
  }

  lemma FinalizeKeepsValid(s: State, q: Request)
    requires Valid(s) && FinalizeVerificationCase(s, q).Ok?
    ensures Valid(FinalizeVerificationCase(s, q).value)
  {
    var p := s.policies[s.providers[q.providerId].providerType];
    DecisionFitsTheConstraints(ChecksOf(s, q.caseId), p, q.at);
    RecordKeepsValid(s, q, DecisionFor(s, q, p));
  }

  lemma CheckKeepsValid(s: State, caseId: int, c: Check)
    requires Valid(s) && Recordable(s, caseId, c)
    ensures Valid(s.(checks := s.checks[caseId := ChecksOf(s, caseId) + [c]]))
  {
    assert WellFormed(ChecksOf(s, caseId));
    assert WellFormed(ChecksOf(s, caseId) + [c]);
  }

  lemma RegisterKeepsValid(s: State, id: int, providerType: string)
    requires Valid(s)
    ensures Valid(Apply(s, Register(id, providerType)))
  {
    if id !in s.providers { NoEventsReplaysInitial(s.log, id); }
  }

  lemma OpenReviewKeepsValid(s: State, providerId: int, newCaseId: int)
    requires Valid(s)
    ensures Valid(Apply(s, OpenReview(providerId, newCaseId)))
  {
  }

  lemma StepKeepsValid(s: State, step: Step)
    requires Valid(s)
    ensures Valid(Apply(s, step))
  {
    match step
    case Register(id, providerType) => RegisterKeepsValid(s, id, providerType);
    case OpenReview(providerId, newCaseId) => OpenReviewKeepsValid(s, providerId, newCaseId);
    case RecordCheck(caseId, check) =>
      if Recordable(s, caseId, check) { CheckKeepsValid(s, caseId, check); }
    case Finalize(request) =>
      if FinalizeVerificationCase(s, request).Ok? { FinalizeKeepsValid(s, request); }
    case Degrade(ids, n, locked, now) =>
      if IsBatch(s, now, locked, n, ids) { BatchKeepsValid(s, now, locked, n, ids); }
    case ActivatePolicy(p) => PoliciesAreFree(s, s.policies[p.providerType := p]);
    case RetirePolicy(providerType) => PoliciesAreFree(s, s.policies - {providerType});
  }

  /** Which policy versions are active is no part of what decided cases and provider rows promise. */
  lemma PoliciesAreFree(s: State, policies: map<string, Policy>)
    requires Valid(s)
    ensures Valid(s.(policies := policies))
  {
  }

  lemma BatchKeepsValid(s: State, now: int, locked: set<int>, n: nat, ids: seq<int>)
    requires Valid(s) && IsBatch(s, now, locked, n, ids)
    ensures Valid(DegradeAll(s, ids, now))
  {
    BatchIsDistinct(s, now, locked, n, ids);
    DegradeAllKeepsValid(s, ids, now);
  }

  lemma {:induction false} RunKeepsValid(s: State, steps: seq<Step>)
    requires Valid(s)
    ensures Valid(Run(s, steps))
  {
    if steps != [] {
      RunKeepsValid(s, steps[..|steps| - 1]);
      StepKeepsValid(Run(s, steps[..|steps| - 1]), steps[|steps| - 1]);
    }
  }

  function Empty(policies: map<string, Policy>): State {
    State(map[], map[], map[], policies, [])
  }

  /** In every state reached from an empty store, each provider's tier is accounted for. */
  lemma EveryTierIsAccountedFor(policies: map<string, Policy>, steps: seq<Step>, id: int)
    requires id in Run(Empty(policies), steps).providers
    ensures var s := Run(Empty(policies), steps);
            var row := s.providers[id];
            && Traces(s.log, id, row.tier, row.decidedAt, row.expiresAt)
            && (row.tier != SelfDeclared ==>
                  var i := LastDecision(s.log, id);
                  i >= 0 && s.log[i].caseId in s.cases &&
                  s.cases[s.log[i].caseId] == CaseRow(id, Decided, Some(s.log[i].decision), Some(s.log[i].at)))
  {
    RunKeepsValid(Empty(policies), steps);
    var s := Run(Empty(policies), steps);
    ReplayTraces(s.log, id);
    var row := s.providers[id];
    if row.tier != SelfDeclared {
      assert s.log[LastDecision(s.log, id)] in s.log;
    }
  }

  // ---- Batches ----

  /** Part-way through a batch: the rows taken so far, in order, all before the rows that remain. */
  ghost predicate BatchSoFar(s: State, stale: set<int>, remaining: set<int>, ids: seq<int>) {
    && remaining <= stale && |ids| + |remaining| == |stale|
    && (forall id :: id in stale <==> id in ids || id in remaining)
    && (forall i, j :: 0 <= i < j < |ids| ==> Precedes(s.providers, ids[i], ids[j]))
    && (forall i, other :: 0 <= i < |ids| && other in remaining ==> Precedes(s.providers, ids[i], other))
  }

  lemma BatchGrows(s: State, stale: set<int>, remaining: set<int>, ids: seq<int>, id: int)
    requires BatchSoFar(s, stale, remaining, ids) && id in remaining
    requires forall other :: other in remaining && other != id ==> Precedes(s.providers, id, other)
    ensures BatchSoFar(s, stale, remaining - {id}, ids + [id])
  {
  }

  lemma DegradeNext(s: State, ids: seq<int>, id: int, now: int)
    requires id in s.providers && forall i :: i in ids ==> i in s.providers
    ensures DegradeAll(s, ids + [id], now) == DegradeOne(DegradeAll(s, ids, now), id, now)
  {
    assert (ids + [id])[..|ids|] == ids;
  }

  lemma BatchCompletes(s: State, now: int, locked: set<int>, remaining: set<int>, ids: seq<int>, n: nat)
    requires Valid(s) && BatchSoFar(s, StaleRows(s.providers, now, locked), remaining, ids)
    requires |ids| <= n && (|ids| == n || remaining == {}) && forall id :: id in ids ==> id in s.providers
    ensures IsBatch(s, now, locked, n, ids) && Distinct(ids) && Valid(DegradeAll(s, ids, now))
  {
    BatchIsDistinct(s, now, locked, n, ids);
    DegradeAllKeepsValid(s, ids, now);
  }

  lemma PrecedesIsTransitive(providers: map<int, ProviderRow>, a: int, b: int, c: int)
    requires Precedes(providers, b, c)
    ensures Precedes(providers, a, b) ==> Precedes(providers, a, c)
  {
  }

  method FirstInOrder(providers: map<int, ProviderRow>, ids: set<int>) returns (first: int)
    requires ids != {}
    ensures first in ids && forall id :: id in ids && id != first ==> Precedes(providers, first, id)
  {
    first := AnyOf(ids);
    var rest := ids - {first};
    while rest != {}
      invariant rest <= ids && first in ids && first !in rest
      invariant forall id :: id in ids && id !in rest && id != first ==> Precedes(providers, first, id)
      decreases |rest|
    {
      var id := AnyOf(rest);
      forall other | other in ids && other !in rest && other != first
        ensures Precedes(providers, id, first) ==> Precedes(providers, id, other)
      {
        PrecedesIsTransitive(providers, id, first, other);
      }
      if Precedes(providers, id, first) { first := id; }
      rest := rest - {id};
    }
  }

  // ---- Successive batches, each at its own time ----

  function FullRows(providers: map<int, ProviderRow>): set<int> {
    set id | id in providers && providers[id].tier == FullyVerified
  }

  predicate KnownIds(s: State, batches: seq<seq<int>>) {
    forall k, i :: 0 <= k < |batches| && 0 <= i < |batches[k]| ==> batches[k][i] in s.providers
  }

  /** Batch k happens at times(k). */
  function DegradeBatches(s: State, batches: seq<seq<int>>, times: nat -> int): (r: State)
    requires KnownIds(s, batches)
    ensures r.providers.Keys == s.providers.Keys
    decreases |batches|
  {
    if batches == [] then s
    else
      var k := |batches| - 1;
      assert forall i :: i in batches[k] ==> i in s.providers;
      DegradeAll(DegradeBatches(s, batches[..k], times), batches[k], times(k))
  }

  /** Each batch is what the worker's query yields at its time, next to whatever rows are locked then. */
  ghost predicate AreBatches(s: State, batches: seq<seq<int>>, times: nat -> int, locked: nat -> set<int>, n: nat)
    requires KnownIds(s, batches)
    decreases |batches|
  {
    batches == [] ||
    var k := |batches| - 1;
    AreBatches(s, batches[..k], times, locked, n) &&
    IsBatch(DegradeBatches(s, batches[..k], times), times(k), locked(k), n, batches[k])
  }

  function Flatten(batches: seq<seq<int>>): seq<int> {
    if batches == [] then [] else Flatten(batches[..|batches| - 1]) + batches[|batches| - 1]
  }

  lemma {:induction false} FlattenMembers(batches: seq<seq<int>>, id: int)
    ensures id in Flatten(batches) <==> exists k :: 0 <= k < |batches| && id in batches[k]
    decreases |batches|
  {
    if batches != [] {
      var k := |batches| - 1;
      FlattenMembers(batches[..k], id);
      if id in Flatten(batches[..k]) {
        var j :| 0 <= j < k && id in batches[..k][j];
        assert id in batches[j];
      }
      if j :| 0 <= j < |batches| && id in batches[j] {
        if j < k { assert id in batches[..k][j]; }
      }
    }
  }

  /** No row is degraded twice, the degraded rows are those that were full and no longer are, and the log has one
      event for each. */
  ghost predicate DegradedOnce(s: State, r: State, degraded: seq<int>) {
    && Distinct(degraded)
    && (forall id :: id in s.providers && id !in degraded ==> id in r.providers && r.providers[id] == s.providers[id])
    && (forall id :: id in degraded ==>
          id in FullRows(s.providers) && id in r.providers && id !in FullRows(r.providers))
    && |r.log| == |s.log| + |degraded|
  }

  lemma BatchDegradesOnce(s: State, mid: State, degraded: seq<int>, ids: seq<int>, now: int, locked: set<int>, n: nat)
    requires DegradedOnce(s, mid, degraded) && mid.providers.Keys == s.providers.Keys
    requires IsBatch(mid, now, locked, n, ids)
    requires forall id :: id in ids ==> id in mid.providers
    ensures DegradedOnce(s, DegradeAll(mid, ids, now), degraded + ids)
  {
    BatchIsDistinct(mid, now, locked, n, ids);
    DegradeAllMeans(mid, ids, now);
    forall id | id in ids
      ensures id !in degraded && id in FullRows(mid.providers) && id in FullRows(s.providers)
    {
      assert id in StaleRows(mid.providers, now, locked);
    }
    DistinctConcat(degraded, ids);
  }

  lemma {:induction false} BatchesDegradeOnce(s: State, batches: seq<seq<int>>, times: nat -> int,
                                              locked: nat -> set<int>, n: nat)
    requires KnownIds(s, batches) && AreBatches(s, batches, times, locked, n)
    ensures DegradedOnce(s, DegradeBatches(s, batches, times), Flatten(batches))
    decreases |batches|
  {
    if batches != [] {
      var k := |batches| - 1;
      var mid := DegradeBatches(s, batches[..k], times);
      BatchesDegradeOnce(s, batches[..k], times, locked, n);
      BatchDegradesOnce(s, mid, Flatten(batches[..k]), batches[k], times(k), locked(k), n);
    }
  }

  lemma DistinctConcat(a: seq<int>, b: seq<int>)
    requires Distinct(a) && Distinct(b) && forall x :: x in b ==> x !in a
    ensures Distinct(a + b)
  {
    forall i, j | 0 <= i < |a| && 0 <= j < |b|
      ensures a[i] != b[j]
    {
      assert b[j] in b;
    }
  }

  lemma RowOfLastBatch(s: State, front: seq<seq<int>>, batch: seq<int>, times: nat -> int, locked: nat -> set<int>,
                       n: nat, id: int)
    requires KnownIds(s, front) && AreBatches(s, front, times, locked, n) && id in batch
    requires forall i :: i in batch ==> i in s.providers
    requires IsBatch(DegradeBatches(s, front, times), times(|front|), locked(|front|), n, batch)
    ensures id in s.providers && Stale(s.providers[id], times(|front|))
    ensures DegradeAll(DegradeBatches(s, front, times), batch, times(|front|)).providers[id] ==
            Degraded(s.providers[id], times(|front|))
  {
    var mid := DegradeBatches(s, front, times);
    FreshlyDegraded(mid, times(|front|), locked(|front|), n, batch, id);
    BatchesDegradeOnce(s, front, times, locked, n);
    NotYetDegraded(s, mid, Flatten(front), id);
  }

  /** A row of batch k was stale at the batch's time in the state before all batches, and stays as degraded then. */
  lemma {:induction false} RowOfBatch(s: State, batches: seq<seq<int>>, times: nat -> int, locked: nat -> set<int>,
                                      n: nat, k: nat, id: int)
    requires KnownIds(s, batches) && AreBatches(s, batches, times, locked, n) && k < |batches| && id in batches[k]
    ensures id in s.providers && Stale(s.providers[id], times(k))
    ensures DegradeBatches(s, batches, times).providers[id] == Degraded(s.providers[id], times(k))
    decreases |batches|
  {
    var last := |batches| - 1;
    var front, mid := batches[..last], DegradeBatches(s, batches[..last], times);
    if k < last {
      assert front[k] == batches[k];
      RowOfBatch(s, front, times, locked, n, k, id);
      LeftAlone(mid, times(last), locked(last), n, batches[last], id);
    } else {
      RowOfLastBatch(s, front, batches[last], times, locked, n, id);
    }
  }

  /** No reader who honours expiries can tell a row of batch k apart from the row before all batches, from the
      batch's own time on. */
  lemma BatchesAreInvisible(s: State, batches: seq<seq<int>>, times: nat -> int, locked: nat -> set<int>, n: nat,
                            k: nat, id: int, t: int)
    requires Valid(s) && KnownIds(s, batches) && AreBatches(s, batches, times, locked, n)
    requires k < |batches| && id in batches[k] && t >= times(k)
    ensures id in s.providers
    ensures ReadView(DegradeBatches(s, batches, times).providers[id], t) == ReadView(s.providers[id], t)
  {
    RowOfBatch(s, batches, times, locked, n, k, id);
    assert RowOk(s.providers[id]);
  }

  lemma LeftAlone(s: State, now: int, locked: set<int>, n: nat, ids: seq<int>, id: int)
    requires IsBatch(s, now, locked, n, ids) && (forall i :: i in ids ==> i in s.providers)
    requires id in s.providers && id !in FullRows(s.providers)
    ensures DegradeAll(s, ids, now).providers[id] == s.providers[id]
  {
    BatchIsDistinct(s, now, locked, n, ids);
    DegradeAllMeans(s, ids, now);
    assert id in ids ==> id in StaleRows(s.providers, now, locked);
  }

  lemma FreshlyDegraded(s: State, now: int, locked: set<int>, n: nat, ids: seq<int>, id: int)
    requires IsBatch(s, now, locked, n, ids) && (forall i :: i in ids ==> i in s.providers) && id in ids
    ensures id in FullRows(s.providers) && Stale(s.providers[id], now)
    ensures DegradeAll(s, ids, now).providers[id] == Degraded(s.providers[id], now)
  {
    BatchIsDistinct(s, now, locked, n, ids);
    DegradeAllMeans(s, ids, now);
    assert id in StaleRows(s.providers, now, locked);
  }

  lemma NotYetDegraded(s: State, mid: State, degraded: seq<int>, id: int)
    requires DegradedOnce(s, mid, degraded) && mid.providers.Keys == s.providers.Keys && id in FullRows(mid.providers)
    ensures id in s.providers && mid.providers[id] == s.providers[id]
  {
  }

  lemma FullRowsShrink(s: State, now: int, locked: set<int>, n: nat, ids: seq<int>)
    requires IsBatch(s, now, locked, n, ids) && ids != [] && forall id :: id in ids ==> id in s.providers
    ensures |FullRows(DegradeAll(s, ids, now).providers)| < |FullRows(s.providers)|
  {
    BatchIsDistinct(s, now, locked, n, ids);
    DegradeAllMeans(s, ids, now);
    var r := DegradeAll(s, ids, now);
    assert ids[0] in ids && ids[0] in StaleRows(s.providers, now, locked);
    forall id | id in FullRows(r.providers)
      ensures id in FullRows(s.providers)
    {
    }
    Shrinks(FullRows(r.providers), FullRows(s.providers), ids[0]);
  }

  lemma EmptyBatchMeansDrained(s: State, now: int, locked: set<int>, n: nat)
    requires n >= 1 && IsBatch(s, now, locked, n, [])
    ensures StaleRows(s.providers, now, locked) == {}
  {
    assert |StaleRows(s.providers, now, locked)| == 0;
  }

  lemma AppendBatch(s: State, batches: seq<seq<int>>, ids: seq<int>, times: nat -> int, locked: nat -> set<int>, n: nat)
    requires KnownIds(s, batches) && AreBatches(s, batches, times, locked, n)
    requires IsBatch(DegradeBatches(s, batches, times), times(|batches|), locked(|batches|), n, ids)
    ensures KnownIds(s, batches + [ids]) && AreBatches(s, batches + [ids], times, locked, n)
    ensures forall id :: id in ids ==> id in s.providers
    ensures DegradeBatches(s, batches + [ids], times) ==
              DegradeAll(DegradeBatches(s, batches, times), ids, times(|batches|))
  {
    var all, mid := batches + [ids], DegradeBatches(s, batches, times);
    assert all[..|batches|] == batches && all[|batches|] == ids;
    BatchIsKnown(mid, times(|batches|), locked(|batches|), n, ids);
    KnownAppend(s, batches, ids);
  }

  lemma KnownAppend(s: State, batches: seq<seq<int>>, ids: seq<int>)
    requires KnownIds(s, batches) && forall i :: 0 <= i < |ids| ==> ids[i] in s.providers
    ensures KnownIds(s, batches + [ids])
  {
    var all := batches + [ids];
    forall k, i | 0 <= k < |all| && 0 <= i < |all[k]|
      ensures all[k][i] in s.providers
    {
      assert k < |batches| ==> all[k] == batches[k];
    }
  }

  /** One more batch: an empty one means that nothing stale was left, any other one leaves fewer full rows. */
  lemma DrainStep(s: State, mid: State, batches: seq<seq<int>>, ids: seq<int>, times: nat -> int,
                  locked: nat -> set<int>, n: nat)
    requires KnownIds(s, batches) && AreBatches(s, batches, times, locked, n)
    requires mid == DegradeBatches(s, batches, times)
    requires n >= 1 && IsBatch(mid, times(|batches|), locked(|batches|), n, ids)
    requires forall id :: id in ids ==> id in mid.providers
    ensures KnownIds(s, batches + [ids]) && AreBatches(s, batches + [ids], times, locked, n)
    ensures DegradeBatches(s, batches + [ids], times) == DegradeAll(mid, ids, times(|batches|))
    ensures ids == [] ==>
              DegradeAll(mid, ids, times(|batches|)) == mid &&
              StaleRows(mid.providers, times(|batches|), locked(|batches|)) == {}
    ensures ids != [] ==> |FullRows(DegradeAll(mid, ids, times(|batches|)).providers)| < |FullRows(mid.providers)|
  {
    AppendBatch(s, batches, ids, times, locked, n);
    if ids == [] {
      EmptyBatchMeansDrained(mid, times(|batches|), locked(|batches|), n);
    } else {
      FullRowsShrink(mid, times(|batches|), locked(|batches|), n, ids);
    }
  }

  lemma BatchIsKnown(s: State, now: int, locked: set<int>, n: nat, ids: seq<int>)
    requires IsBatch(s, now, locked, n, ids)
    ensures forall id :: id in ids ==> id in s.providers
    ensures forall i :: 0 <= i < |ids| ==> ids[i] in s.providers
  {
    forall id | id in ids
      ensures id in s.providers
    {
      assert id in StaleRows(s.providers, now, locked);
    }
    assert forall i :: 0 <= i < |ids| ==> ids[i] in ids;
  }

  /** With a clock that does not run backwards, no expiry-aware read after the last batch can tell that any batch
      happened. */
  lemma DrainingIsInvisible(s: State, batches: seq<seq<int>>, times: nat -> int, locked: nat -> set<int>, n: nat,
                            id: int, t: int)
    requires Valid(s) && KnownIds(s, batches) && AreBatches(s, batches, times, locked, n) && batches != []
    requires (forall i: nat, j: nat :: i <= j ==> times(i) <= times(j)) && t >= times(|batches| - 1)
    requires id in s.providers
    ensures ReadView(DegradeBatches(s, batches, times).providers[id], t) == ReadView(s.providers[id], t)
  {
    FlattenMembers(batches, id);
    if k :| 0 <= k < |batches| && id in batches[k] {
      assert times(k) <= times(|batches| - 1);
      BatchesAreInvisible(s, batches, times, locked, n, k, id, t);
    } else {
      BatchesDegradeOnce(s, batches, times, locked, n);
    }
  }

  lemma PersistedIsJustified(checks: seq<Check>, p: Policy, now: int, d: Decision)
    requires WellFormed(checks) && Accepted(p) && Justified(checks, p, now, d)
    ensures TierDatabase.FinalizeDecision(checks, p, now) == d
  {
    AcceptedIsCoherent(p);
    TierDatabase.DatabaseDecisionIsJustified(checks, p, now);
    JustifiedIsUnique(checks, p, now, d, TierDatabase.FinalizeDecision(checks, p, now));
  }

  /** Once the application's own guards have passed, the database can only object to the request id, the time or the
      grant. */
  lemma FinalizationSucceeds(s: State, q: Request, d: Decision)
    requires Valid(s) && ActiveFor(s, q.caseId, q.providerId) && q.providerId in s.providers
    requires s.providers[q.providerId].providerType in s.policies
    requires var p := s.policies[s.providers[q.providerId].providerType];
             Accepted(p) && p.version == q.policyVersion && Justified(ChecksOf(s, q.caseId), p, q.at, d)
    ensures var r := FinalizeVerificationCase(s, q);
            match r
            case Err(error) => error in {RequestIdRequired, OutsideRequestWindow, NotAuthorized}
            case Ok(next) => Valid(next) && next == Record(s, q, d)
  {
    var p := s.policies[s.providers[q.providerId].providerType];
    ApplicationImpliesDatabase(p);
    PersistedIsJustified(ChecksOf(s, q.caseId), p, q.at, d);
    FinalizationOutcome(s, q, d);
    if FinalizeVerificationCase(s, q).Ok? { FinalizeKeepsValid(s, q); }
  }

  lemma FinalizationOutcome(s: State, q: Request, d: Decision)
    requires ActiveFor(s, q.caseId, q.providerId) && q.providerId in s.providers && s.cases[q.caseId].outcome.None?
    requires s.providers[q.providerId].providerType in s.policies
    requires var p := s.policies[s.providers[q.providerId].providerType];
             AcceptedByDatabase(p) && p.version == q.policyVersion && DecisionFor(s, q, p) == d
    ensures var r := FinalizeVerificationCase(s, q);
            r == Ok(Record(s, q, d)) || (r.Err? && r.error in {RequestIdRequired, OutsideRequestWindow, NotAuthorized})
  {
  }

  // ---- The same, column by column ----

  /** Whose tier a call at `now` may degrade: a full row is left alone only if somebody has locked it, or if its expiry
      is later than both its decision and `now`. */
  lemma StaleRowsMean(providers: map<int, ProviderRow>, now: int, locked: set<int>, id: int)
    ensures id in StaleRows(providers, now, locked) <==>
            id in providers && id !in locked && providers[id].tier == FullyVerified &&
            !(providers[id].decidedAt.Some? && providers[id].expiresAt.Some? &&
              providers[id].decidedAt.value < providers[id].expiresAt.value && now < providers[id].expiresAt.value)
  {
  }

  /** No full tier of a row that nobody has locked has lapsed. */
  predicate NoneLapsed(providers: map<int, ProviderRow>, now: int, locked: set<int>) {
    forall id :: id in providers && id !in locked && providers[id].tier == FullyVerified ==>
      providers[id].expiresAt.Some? && now < providers[id].expiresAt.value
  }

  lemma NothingStaleNoneLapsed(providers: map<int, ProviderRow>, now: int, locked: set<int>)
    requires StaleRows(providers, now, locked) == {}
    ensures NoneLapsed(providers, now, locked)
  {
    forall id | id in providers && id !in locked && providers[id].tier == FullyVerified
      ensures providers[id].expiresAt.Some? && now < providers[id].expiresAt.value
    {
      StaleRowsMean(providers, now, locked, id);
    }
  }

  /** A row is degraded if its full tier has lapsed and nobody holds it: it then has the lower tier, decided now,
      without an expiry. */
  predicate LapsedAndDegraded(was: ProviderRow, row: ProviderRow, now: int) {
    && was.tier == FullyVerified && was.expiresAt.Some? && was.expiresAt.value <= now
    && row == ProviderRow(was.providerType, DocumentVerified, Some(now), None)
  }

  /** The rows are taken by expiry and then by id. */
  predicate EarlierRow(providers: map<int, ProviderRow>, a: int, b: int)
    requires a in providers && b in providers
  {
    providers[a].expiresAt.Some? && providers[b].expiresAt.Some? &&
    (providers[a].expiresAt.value < providers[b].expiresAt.value ||
     (providers[a].expiresAt.value == providers[b].expiresAt.value && a < b))
  }

  /** What one batch does to the rows. */
  predicate BatchOnRows(was: map<int, ProviderRow>, rows: map<int, ProviderRow>, now: int, locked: set<int>, n: nat,
                        ids: seq<int>)
  {
    && was.Keys == rows.Keys && |ids| <= n
    && (forall id :: id in ids ==> id in was && id !in locked && LapsedAndDegraded(was[id], rows[id], now))
    && (forall id :: id in was && id !in ids ==> rows[id] == was[id])
    && (forall i, j :: 0 <= i < j < |ids| ==> ids[i] in was && ids[j] in was && EarlierRow(was, ids[i], ids[j]))
    && (|ids| < n ==> NoneLapsed(rows, now, locked))
    && (forall id, other :: id in ids && other in was && other !in ids && LapsedRow(was, other, now, locked)
                            ==> EarlierRow(was, id, other))
  }

  predicate LapsedRow(rows: map<int, ProviderRow>, id: int, now: int, locked: set<int>) {
    && id in rows && id !in locked && rows[id].tier == FullyVerified
    && rows[id].expiresAt.Some? && rows[id].expiresAt.value <= now
  }

  lemma LapsedRowIsStale(s: State, now: int, locked: set<int>, id: int)
    requires Valid(s)
    ensures LapsedRow(s.providers, id, now, locked) <==> id in StaleRows(s.providers, now, locked)
  {
    if id in s.providers { assert RowOk(s.providers[id]); }
    StaleRowsMean(s.providers, now, locked, id);
  }

  lemma EarlierIffPrecedes(s: State, now: int, locked: set<int>, a: int, b: int)
    requires LapsedRow(s.providers, a, now, locked) && LapsedRow(s.providers, b, now, locked)
    ensures EarlierRow(s.providers, a, b) <==> Precedes(s.providers, a, b)
  {
  }

  lemma BatchTakesRows(s: State, now: int, locked: set<int>, n: nat, ids: seq<int>)
    requires Valid(s) && IsBatch(s, now, locked, n, ids) && (forall id :: id in ids ==> id in s.providers)
    ensures BatchOnRows(s.providers, DegradeAll(s, ids, now).providers, now, locked, n, ids)
  {
    BatchIsDistinct(s, now, locked, n, ids);
    forall id
      ensures LapsedRow(s.providers, id, now, locked) <==> id in StaleRows(s.providers, now, locked)
    {
      LapsedRowIsStale(s, now, locked, id);
    }
    BatchIsInOrder(s, now, locked, n, ids);
    if |ids| < n { ShortBatchTakesAll(s, now, locked, n, ids); }
    DegradeAllMeans(s, ids, now);
  }

  lemma BatchIsInOrder(s: State, now: int, locked: set<int>, n: nat, ids: seq<int>)
    requires Valid(s) && IsBatch(s, now, locked, n, ids)
    ensures forall i, j :: 0 <= i < j < |ids| ==>
              ids[i] in s.providers && ids[j] in s.providers && EarlierRow(s.providers, ids[i], ids[j])
    ensures forall id, other :: id in ids && other !in ids && LapsedRow(s.providers, other, now, locked) ==>
              id in s.providers && EarlierRow(s.providers, id, other)
  {
    forall i, j | 0 <= i < j < |ids|
      ensures ids[i] in s.providers && ids[j] in s.providers && EarlierRow(s.providers, ids[i], ids[j])
    {
      assert ids[i] in ids && ids[j] in ids;
      LapsedRowIsStale(s, now, locked, ids[i]);
      LapsedRowIsStale(s, now, locked, ids[j]);
      EarlierIffPrecedes(s, now, locked, ids[i], ids[j]);
    }
    forall id, other | id in ids && other !in ids && LapsedRow(s.providers, other, now, locked)
      ensures id in s.providers && EarlierRow(s.providers, id, other)
    {
      LapsedRowIsStale(s, now, locked, id);
      LapsedRowIsStale(s, now, locked, other);
      EarlierIffPrecedes(s, now, locked, id, other);
    }
  }

  lemma ShortBatchTakesAll(s: State, now: int, locked: set<int>, n: nat, ids: seq<int>)
    requires Valid(s) && IsBatch(s, now, locked, n, ids) && |ids| < n && (forall id :: id in ids ==> id in s.providers)
    ensures NoneLapsed(DegradeAll(s, ids, now).providers, now, locked)
  {
    var stale := StaleRows(s.providers, now, locked);
    BatchIsDistinct(s, now, locked, n, ids);
    DegradeAllMeans(s, ids, now);
    var taken := set id | id in ids;
    DistinctLength(ids);
    EqualSizes(taken, stale);
    forall id | id in s.providers && id !in locked && id !in ids && s.providers[id].tier == FullyVerified
      ensures s.providers[id].expiresAt.Some? && now < s.providers[id].expiresAt.value
    {
      StaleRowsMean(s.providers, now, locked, id);
    }
  }

  lemma {:induction false} DistinctLength(ids: seq<int>)
    requires Distinct(ids)
    ensures |set id | id in ids| == |ids|
  {
    if ids != [] {
      var front, last := ids[..|ids| - 1], ids[|ids| - 1];
      DistinctLength(front);
      assert (set id | id in ids) == (set id | id in front) + {last};
    }
  }

  lemma EqualSizes(small: set<int>, large: set<int>)
    requires small <= large && |small| >= |large|
    ensures small == large
  {
    forall x | x in large
      ensures x in small
    {
      if x !in small { Shrinks(small, large, x); }
    }
  }

  /** Over all batches: a row whose full tier had not lapsed at any batch's time, or that was not full, is as it was. */
  lemma BatchesSpareTheRest(s: State, batches: seq<seq<int>>, times: nat -> int, locked: nat -> set<int>, n: nat,
                            id: int)
    requires Valid(s) && KnownIds(s, batches) && AreBatches(s, batches, times, locked, n) && id in s.providers
    requires s.providers[id].tier == FullyVerified ==>
               forall k :: 0 <= k < |batches| ==> times(k) < s.providers[id].expiresAt.value
    ensures DegradeBatches(s, batches, times).providers[id] == s.providers[id]
  {
    FlattenMembers(batches, id);
    assert RowOk(s.providers[id]);
    if k :| 0 <= k < |batches| && id in batches[k] {
      RowOfBatch(s, batches, times, locked, n, k, id);
    } else {
      BatchesDegradeOnce(s, batches, times, locked, n);
    }
  }

  /** What an expiry-aware read shows: a full tier exactly as long as it lasts, and every other tier as it is stored. */
  lemma ReadViewMeans(row: ProviderRow, now: int)
    ensures ReadView(row, now).tier == FullyVerified <==>
            row.tier == FullyVerified && row.expiresAt.Some? && now < row.expiresAt.value
    ensures ReadView(row, now).tier == FullyVerified ==> ReadView(row, now).expiresAt == row.expiresAt
    ensures row.tier == FullyVerified && ReadView(row, now).tier != FullyVerified ==>
              ReadView(row, now) == TierView(DocumentVerified, None)
    ensures row.tier != FullyVerified ==> ReadView(row, now) == TierView(row.tier, row.expiresAt)
  {
  }

  /** When the database function records a decision: a request id that is not blank, a time within 300000 milliseconds
      of the transaction, the grant, an undecided case of the provider in review, and the active policy of its type. */
  predicate Decidable(s: State, q: Request) {
    && q.requestId.Some? && (exists i :: 0 <= i < |q.requestId.value| && q.requestId.value[i] != ' ')
    && -300000 <= q.at - q.txTime <= 300000 && q.granted
    && q.caseId in s.cases && s.cases[q.caseId].providerId == q.providerId
    && s.cases[q.caseId].status == ReviewRequired && s.cases[q.caseId].outcome == None
    && q.providerId in s.providers && s.providers[q.providerId].providerType in s.policies
    && s.policies[s.providers[q.providerId].providerType].version == q.policyVersion
    && AcceptedByDatabase(s.policies[s.providers[q.providerId].providerType])
  }

  /** What a recorded decision leaves: the case decided at that time, the provider's three columns, and one event. */
  predicate Recorded(s: State, r: State, q: Request, d: Decision)
    requires q.caseId in s.cases && q.providerId in s.providers
  {
    && r.cases == s.cases[q.caseId := CaseRow(s.cases[q.caseId].providerId, Decided, Some(d), Some(q.at))]
    && r.providers ==
         s.providers[q.providerId := ProviderRow(s.providers[q.providerId].providerType, d.tier, Some(q.at),
                                                 d.tierExpiresAt)]
    && r.log == s.log + [TierDecided(q.providerId, q.caseId, d, q.at)]
    && r.checks == s.checks && r.policies == s.policies
  }

  /** The function records exactly then, and what its queries compute from the case's checks and the active policy. */
  lemma DecidesAndRecords(s: State, q: Request)
    ensures FinalizeVerificationCase(s, q).Ok? <==> Decidable(s, q)
    ensures Decidable(s, q) ==>
              var checks := if q.caseId in s.checks then s.checks[q.caseId] else [];
              var d := TierDatabase.FinalizeDecision(checks, s.policies[s.providers[q.providerId].providerType], q.at);
              Recorded(s, FinalizeVerificationCase(s, q).value, q, d)
  {
  }

  lemma RecordIsRecorded(s: State, q: Request, d: Decision)
    requires q.caseId in s.cases && q.providerId in s.providers
    ensures Recorded(s, Record(s, q, d), q, d)
  {
  }

  // ---- Steps take effect ----

  lemma RegisteringTakesEffect(s: State, id: int, providerType: string)
    requires id !in s.providers
    ensures Apply(s, Register(id, providerType)).providers ==
            s.providers[id := ProviderRow(providerType, SelfDeclared, None, None)]
  {
  }

  /** A review is opened exactly for a provider without one. */
  lemma ReviewOpensIff(s: State, providerId: int, caseId: int)
    requires providerId in s.providers && caseId !in s.cases
    ensures Apply(s, OpenReview(providerId, caseId)).cases ==
            if exists c :: c in s.cases && s.cases[c].providerId == providerId && s.cases[c].status == ReviewRequired
            then s.cases
            else s.cases[caseId := CaseRow(providerId, ReviewRequired, None, None)]
  {
    if c :| c in s.cases && s.cases[c].providerId == providerId && s.cases[c].status == ReviewRequired {
      assert ActiveFor(s, c, providerId);
    }
  }

  /** A check is recorded while its case is in review, under a higher sequence number than any before. */
  lemma CheckIsRecorded(s: State, caseId: int, check: Check)
    requires caseId in s.cases && s.cases[caseId].status == ReviewRequired && '\0' !in check.checkType
    requires caseId in s.checks ==> forall d :: d in s.checks[caseId] ==> d.recordedSequence < check.recordedSequence
    ensures Apply(s, RecordCheck(caseId, check)).checks ==
            s.checks[caseId := (if caseId in s.checks then s.checks[caseId] else []) + [check]]
  {
  }

  lemma PoliciesTakeEffect(s: State, p: Policy, providerType: string)
    ensures (exists i :: 0 <= i < |p.providerType| && p.providerType[i] != ' ') &&
            (exists i :: 0 <= i < |p.version| && p.version[i] != ' ') ==>
              Apply(s, ActivatePolicy(p)).policies == s.policies[p.providerType := p]
    ensures Apply(s, RetirePolicy(providerType)).policies == s.policies - {providerType}
  {
  }

  // ---- The store itself ----

  datatype AppError =
    | AdminRequired
    | AppProviderNotFound
    | PolicyUnavailable
    | ActiveCaseNotFound
    | Preflight(preflight: TierPreflight.PreflightError)
    | Database(database: FinalizeError)
    | DecisionMismatch

  datatype DegradeError = RevalidationIdRequired | BatchSizeInvalid | RevalidationNotAuthorized

  /** Why the worker's function raises before it looks at any row, in the order of its checks. */
  function DegradeRefusal(batchSize: Option<int>, requestId: Option<string>, granted: bool): Option<DegradeError> {
    if Missing(requestId) then Some(RevalidationIdRequired)
    else if batchSize.None? || batchSize.value < 1 || batchSize.value > 1000 then Some(BatchSizeInvalid)
    else if !granted then Some(RevalidationNotAuthorized)
    else None
  }

  /** All that stands between a request and a recorded decision. */
  predicate MayDecide(s: State, q: Request, admin: bool) {
    && admin && !Missing(q.requestId) && q.granted && q.txTime - WINDOW_MS <= q.at <= q.txTime + WINDOW_MS
    && q.providerId in s.providers
    && var providerType := s.providers[q.providerId].providerType;
       && providerType in s.policies && s.policies[providerType].version == q.policyVersion
       && s.policies[providerType].providerType == providerType && Accepted(s.policies[providerType])
       && ActiveFor(s, q.caseId, q.providerId)
  }

  function RequestFor(s: State, providerId: int, caseId: int, now: int, txTime: int, granted: bool,
                      requestId: string): Request
  {
    var known := providerId in s.providers && s.providers[providerId].providerType in s.policies;
    var version := if known then s.policies[s.providers[providerId].providerType].version else "";
    Request(caseId, providerId, version, now, txTime, granted, Some(requestId))
  }

  class Store {
    var providers: map<int, ProviderRow>
    var cases: map<int, CaseRow>
    var checks: map<int, seq<Check>>
    var policies: map<string, Policy>
    var log: seq<TierEvent>

    ghost function View(): State
      reads this
    {
      State(providers, cases, checks, policies, log)
    }

    constructor (policies: map<string, Policy>)
      ensures View() == Empty(policies) && Valid(View())
    {
      providers, cases, checks, log := map[], map[], map[], [];
      this.policies := policies;
    }

    /** The two UPDATEs and the audit INSERT. */
    method RecordDecision(q: Request, d: Decision)
      requires q.caseId in cases && q.providerId in providers
      modifies this`providers, this`cases, this`log
      ensures View() == Record(old(View()), q, d)
    {
      cases := cases[q.caseId := cases[q.caseId].(status := Decided, outcome := Some(d), decidedAt := Some(q.at))];
      providers := providers[q.providerId := providers[q.providerId].(tier := d.tier, decidedAt := Some(q.at),
                                                                      expiresAt := d.tierExpiresAt)];
      log := log + [TierDecided(q.providerId, q.caseId, d, q.at)];
    }

    /** The database function: it records the decision its own queries reach, or raises and changes nothing. */
    method FinalizeCase(q: Request) returns (r: Result<Decision, FinalizeError>)
      modifies this`providers, this`cases, this`log
      ensures r.Err? ==> View() == old(View()) && FinalizeVerificationCase(old(View()), q) == Err(r.error)
      ensures r.Ok? ==> FinalizeVerificationCase(old(View()), q) == Ok(View())
      ensures r.Ok? ==> q.caseId in cases && cases[q.caseId].outcome == Some(r.value)
    {
      if Missing(q.requestId) { return Err(RequestIdRequired); }
      if q.at < q.txTime - WINDOW_MS || q.at > q.txTime + WINDOW_MS { return Err(OutsideRequestWindow); }
      if !q.granted { return Err(NotAuthorized); }
      if q.caseId !in cases || cases[q.caseId].providerId != q.providerId { return Err(CaseNotFound); }
      if cases[q.caseId].status != ReviewRequired || cases[q.caseId].outcome.Some? { return Err(CaseNotActive); }
      if q.providerId !in providers { return Err(ProviderNotFound); }
      if providers[q.providerId].providerType !in policies { return Err(NoActivePolicy); }
      var p := policies[providers[q.providerId].providerType];
      if p.version != q.policyVersion { return Err(PolicyVersionChanged); }
      if !AcceptedByDatabase(p) { return Err(PolicyRejected); }
      var d := TierDatabase.FinalizeDecision(if q.caseId in checks then checks[q.caseId] else [], p, q.at);
      RecordDecision(q, d);
      return Ok(d);
    }

    /** The whole application transaction. The preflight never fails on a policy that loaded, the database never
        disagrees with it, and the only database refusals left are the request id, the time window and the grant. */
    method FinalizeCredentialDecision(providerId: int, caseId: int, now: int, txTime: int, admin: bool, granted: bool,
                                      requestId: string)
        returns (r: Result<Decision, AppError>)
      requires Valid(View())
      modifies this`providers, this`cases, this`log
      ensures Valid(View())
      ensures r.Err? ==> View() == old(View())
      ensures r.Err? ==> r.error != DecisionMismatch && !r.error.Preflight? &&
                         (r.error.Database? ==>
                            r.error.database in {RequestIdRequired, OutsideRequestWindow, NotAuthorized})
      ensures r.Ok? <==>
              MayDecide(old(View()), RequestFor(old(View()), providerId, caseId, now, txTime, granted, requestId),
                        admin)
      ensures r.Ok? ==> ActiveFor(old(View()), caseId, providerId) && caseId in cases && providerId in providers &&
                        cases[caseId] == CaseRow(providerId, Decided, Some(r.value), Some(now)) &&
                        providers[providerId].tier == r.value.tier &&
                        providers[providerId].providerType in policies &&
                        Justified(ChecksOf(old(View()), caseId), policies[providers[providerId].providerType], now,
                                  r.value)
      ensures r.Ok? ==> Recorded(old(View()), View(),
                                 Request(caseId, providerId, policies[providers[providerId].providerType].version, now,
                                         txTime, granted, Some(requestId)), r.value)
    {
      if !admin { return Err(AdminRequired); }
      if providerId !in providers { return Err(AppProviderNotFound); }
      var providerType := providers[providerId].providerType;
      if providerType !in policies || ValidateCredentialTierPolicy(policies[providerType]).Err? ||
         policies[providerType].providerType != providerType
      {
        return Err(PolicyUnavailable);
      }
      var policy := policies[providerType];
      if caseId !in cases || cases[caseId].providerId != providerId || cases[caseId].status != ReviewRequired ||
         cases[caseId].decidedAt.Some?
      {
        return Err(ActiveCaseNotFound);
      }
      var recorded := if caseId in checks then checks[caseId] else [];
      var decision := TierPreflight.DecideTierFromRecordedChecks(providerType, recorded, policy, now);
      var q := Request(caseId, providerId, policy.version, now, txTime, granted, Some(requestId));
      ghost var before := View();
      var persisted := FinalizeCase(q);
      FinalizationSucceeds(before, q, decision.value);
      if persisted.Err? { return Err(Database(persisted.error)); }
      RecordIsRecorded(before, q, decision.value);
      if persisted.value != decision.value { return Err(DecisionMismatch); }
      return Ok(persisted.value);
    }

    /** The loop's UPDATE of provider and INSERT into audit_event. */
    method DegradeRow(id: int, now: int)
      requires id in providers
      modifies this`providers, this`log
      ensures View() == DegradeOne(old(View()), id, now)
    {
      providers := providers[id := providers[id].(tier := DocumentVerified, decidedAt := Some(now), expiresAt := None)];
      log := log + [TierDegraded(id, now)];
    }

    /** degrade_expired_provider_tiers: it refuses a missing request id, a batch size outside 1 to 1000 or a caller
        without the grant, and otherwise degrades the first stale rows that nobody has locked. */
    method DegradeExpiredProviderTiers(now: int, batchSize: Option<int>, locked: set<int>, requestId: Option<string>,
                                       granted: bool)
        returns (r: Result<seq<int>, DegradeError>)
      requires Valid(View())
      modifies this`providers, this`log
      ensures Valid(View())
      ensures match DegradeRefusal(batchSize, requestId, granted)
              case Some(error) => r == Err(error) && View() == old(View())
              case None =>
                r.Ok? && batchSize.Some? && batchSize.value >= 1 &&
                IsBatch(old(View()), now, locked, batchSize.value, r.value) &&
                (forall id :: id in r.value ==> id in old(View()).providers) &&
                View() == DegradeAll(old(View()), r.value, now)
      ensures r.Ok? ==> batchSize.Some? && 1 <= batchSize.value <= 1000 && granted && requestId.Some? &&
                        BatchOnRows(old(providers), providers, now, locked, batchSize.value, r.value)
    {
      if Missing(requestId) { return Err(RevalidationIdRequired); }
      if batchSize.None? || batchSize.value < 1 || batchSize.value > 1000 { return Err(BatchSizeInvalid); }
      if !granted { return Err(RevalidationNotAuthorized); }
      var ids := [];
      ghost var before := View();
      var snapshot := providers;
      var remaining := StaleRows(snapshot, now, locked);
      while |ids| < batchSize.value && remaining != {}
        invariant forall id :: id in ids ==> id in before.providers
        invariant remaining <= before.providers.Keys
        invariant View() == DegradeAll(before, ids, now)
        invariant BatchSoFar(before, StaleRows(before.providers, now, locked), remaining, ids)
        invariant |ids| <= batchSize.value
        decreases |remaining|
      {
        var id := FirstInOrder(snapshot, remaining);
        BatchGrows(before, StaleRows(before.providers, now, locked), remaining, ids, id);
        DegradeNext(before, ids, id, now);
        DegradeRow(id, now);
        ids := ids + [id];
        remaining := remaining - {id};
      }
      BatchCompletes(before, now, locked, remaining, ids, batchSize.value);
      BatchTakesRows(before, now, locked, batchSize.value, ids);
      return Ok(ids);
    }

    /** The worker's successive calls, each in a transaction of its own, until one finds nothing: whatever the times
        and the rows locked at each, this ends, what it has done is a sequence of batches that degrades each row at most
        once, and at the last batch's time nothing stale is left. */
    method DrainStaleTiers(times: nat -> int, locked: nat -> set<int>, batchSize: int, requestId: string)
        returns (batches: seq<seq<int>>)
      requires Valid(View()) && 1 <= batchSize <= 1000 && !Missing(Some(requestId))
      modifies this`providers, this`log
      ensures Valid(View()) && KnownIds(old(View()), batches)
      ensures AreBatches(old(View()), batches, times, locked, batchSize)
      ensures View() == DegradeBatches(old(View()), batches, times)
      ensures DegradedOnce(old(View()), View(), Flatten(batches))
      ensures 1 <= |batches| <= |FullRows(old(View()).providers)| + 1
      ensures StaleRows(providers, times(|batches| - 1), locked(|batches| - 1)) == {}
      ensures NoneLapsed(providers, times(|batches| - 1), locked(|batches| - 1))
    {
      batches := [];
      ghost var before := View();
      var done := false;
      while !done
        invariant KnownIds(before, batches) && AreBatches(before, batches, times, locked, batchSize)
        invariant Valid(View()) && View() == DegradeBatches(before, batches, times)
        invariant |batches| + |FullRows(providers)| <= |FullRows(before.providers)| + if done then 1 else 0
        invariant done ==> batches != [] && StaleRows(providers, times(|batches| - 1), locked(|batches| - 1)) == {}
        decreases !done, |FullRows(providers)|
      {
        ghost var mid := View();
        var k := |batches|;
        var batch := DegradeExpiredProviderTiers(times(k), Some(batchSize), locked(k), Some(requestId), true);
        DrainStep(before, mid, batches, batch.value, times, locked, batchSize);
        batches := batches + [batch.value];
        done := batch.value == [];
      }
      BatchesDegradeOnce(before, batches, times, locked, batchSize);
      NothingStaleNoneLapsed(providers, times(|batches| - 1), locked(|batches| - 1));
    }
  }
}
