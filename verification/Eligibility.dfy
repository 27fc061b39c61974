/** Routing of a need: paid directory, legal-aid referral or pro-bono rotation. */
module Eligibility {
  import opened Sequences

  datatype Route = Paid | LegalAidReferral | ProBonoRotation

  datatype PolicyGap = DistrictFloorNotConfigured

  /** An empty category is falsy and counts as none. */
  datatype Input = Input(selfDeclaredSection12Category: Option<string>, feeCeiling: Option<real>,
                         districtFloor: Option<real>)

  datatype Decision = Decision(route: Route, selfDeclared: bool, section12Category: Option<string>,
                               policyGap: Option<PolicyGap>)

  function DecideEligibility(input: Input): Decision {
    if input.selfDeclaredSection12Category.Some? && input.selfDeclaredSection12Category.value != "" then
      Decision(LegalAidReferral, true, input.selfDeclaredSection12Category, None)
    else if input.feeCeiling.Some? && input.districtFloor.None? then
      Decision(Paid, false, None, Some(DistrictFloorNotConfigured))
    else if input.feeCeiling.Some? && input.districtFloor.Some? &&
            input.feeCeiling.value < input.districtFloor.value then
      Decision(ProBonoRotation, false, None, None)
    else Decision(Paid, false, None, None)
  }

  predicate Entitled(input: Input) {
    input.selfDeclaredSection12Category.Some? && input.selfDeclaredSection12Category.value != ""
  }

  /** The request route refuses to route a fee ceiling it cannot compare; None stands for that 503. */
  function RouteNeed(input: Input): Option<Decision> {
    if !Entitled(input) && input.feeCeiling.Some? && input.districtFloor.None? then None
    else Some(DecideEligibility(input))
  }

  /** A category was declared. */
  predicate Declared(category: Option<string>) {
    category != None && |category.value| > 0
  }

  /** A need is refused exactly if no category was declared and its fee ceiling has no floor to be compared with. */
  lemma RefusedIff(input: Input)
    ensures RouteNeed(input) == None <==>
            !Declared(input.selfDeclaredSection12Category) && input.feeCeiling != None && input.districtFloor == None
    ensures DecideEligibility(input).policyGap == (if RouteNeed(input) == None then Some(DistrictFloorNotConfigured)
                                                   else None)
  {
  }

  /** What a stored decision says about the citizen: paid exactly if no category was declared and a stated fee
      ceiling reaches the district's floor, and otherwise by the category or by the ceiling. */
  lemma RoutedMeans(input: Input)
    requires RouteNeed(input).Some?
    ensures var d, declared := RouteNeed(input).value, Declared(input.selfDeclaredSection12Category);
            && d.policyGap == None
            && (d.route == LegalAidReferral <==> declared)
            && (d.route == Paid <==>
                !declared && (input.feeCeiling.Some? ==> input.districtFloor.value <= input.feeCeiling.value))
            && d.section12Category == (if declared then input.selfDeclaredSection12Category else None)
            && (d.selfDeclared <==> declared)
            && (declared <==> Entitled(input))
  {
  }
}
