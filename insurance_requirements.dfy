/**
 * Columbia University's standard insurance requirements, in the shape the
 * Brokermatic compliance check accepts, and the constant tables beside them.
 */
module InsuranceRequirements {
  import opened Common
  import opened SmartCoiClient

  const DefaultProjectDescription: string := "General work for Columbia University"
  const ColumbiaHolderId: string := "ch_columbia_university"

  /** `getColumbiaComplianceRequirements`; the default applies only to a missing
      argument (a JavaScript default parameter), not to an empty one. */
  function ColumbiaComplianceRequirements(projectDescription: Option<string>): (r: ComplianceRequirement)
    ensures r.holderId == ColumbiaHolderId && r.deadline.None? && r.insuredName.None?
    ensures r.projectDescription == projectDescription.GetOr(DefaultProjectDescription)
    ensures GlRequired(r.requirements) && WcRequired(r.requirements)
    ensures !AutoRequired(r.requirements)
    ensures r.requirements.umbrellaLiability.Some? && !r.requirements.umbrellaLiability.value.required
  {
    ComplianceRequirement(
      ColumbiaHolderId,
      None,
      projectDescription.GetOr(DefaultProjectDescription),
      None,
      Requirements(
        Some(GlRequirement(true, Some(GlLimits(2000000, 4000000)), Some(true), Some(true), Some(true))),
        Some(AutoRequirement(false, Some(AutoLimits(1000000)))),
        Some(WcRequirement(true, Some(true), Some(true))),
        Some(UmbrellaRequirement(false, Some(UmbrellaLimits(5000000))))))
  }

  /** `COLUMBIA_REQUIRED_COVERAGES`. */
  const ColumbiaRequiredCoverages: seq<string> := ["general_liability", "workers_compensation"]

  /** `COLUMBIA_MINIMUM_LIMITS`, numeric entries; the one boolean entry is below. */
  const ColumbiaMinimumLimits: map<string, map<string, int>> := map[
    "general_liability" := map["eachOccurrence" := 2000000, "generalAggregate" := 4000000,
                               "productsCompletedOps" := 4000000, "personalAdvertisingInjury" := 2000000],
    "workers_compensation" := map["elEachAccident" := 500000, "elDiseasePolicyLimit" := 500000,
                                  "elDiseaseEachEmployee" := 500000],
    "auto_liability" := map["combinedSingleLimit" := 1000000],
    "professional_liability" := map["perClaim" := 1000000, "aggregate" := 1000000],
    "umbrella_liability" := map["eachOccurrence" := 5000000, "aggregate" := 5000000]]

  /** `COLUMBIA_MINIMUM_LIMITS.workers_compensation.statutoryLimits`. */
  const ColumbiaWcStatutoryLimits: bool := true

  /** The GL, auto and umbrella minimums of the requirements object agree with the limits table,
      and every GL endorsement is demanded. */
  lemma RequirementsMatchLimitTable(projectDescription: Option<string>)
    ensures var rs := ColumbiaComplianceRequirements(projectDescription).requirements;
      var gl := rs.generalLiability.value;
      gl.minLimits.Some?
      && gl.minLimits.value.eachOccurrence == ColumbiaMinimumLimits["general_liability"]["eachOccurrence"]
      && gl.minLimits.value.generalAggregate == ColumbiaMinimumLimits["general_liability"]["generalAggregate"]
      && gl.requireAdditionalInsured == Some(true)
      && gl.requireWaiverOfSubrogation == Some(true)
      && gl.requirePrimaryNonContributory == Some(true)
      && rs.autoLiability.value.minLimits.Some?
      && rs.autoLiability.value.minLimits.value.combinedSingleLimit
         == ColumbiaMinimumLimits["auto_liability"]["combinedSingleLimit"]
      && rs.umbrellaLiability.value.minLimits.Some?
      && rs.umbrellaLiability.value.minLimits.value.eachOccurrence
         == ColumbiaMinimumLimits["umbrella_liability"]["eachOccurrence"]
  {
  }

  /** The required coverages of the requirements object are exactly the ones the
      constant list names (by their snake-case names). */
  lemma RequiredCoveragesAgree(projectDescription: Option<string>)
    ensures var rs := ColumbiaComplianceRequirements(projectDescription).requirements;
      ("general_liability" in ColumbiaRequiredCoverages <==> GlRequired(rs))
      && ("workers_compensation" in ColumbiaRequiredCoverages <==> WcRequired(rs))
      && ("auto_liability" in ColumbiaRequiredCoverages <==> AutoRequired(rs))
      && "umbrella_liability" !in ColumbiaRequiredCoverages
  {
  }

  /** Checking a certificate against Columbia's requirements in mock mode yields
      exactly the GL and WC results, with Columbia's GL minimums recorded, and a
      compliant verdict. */
  lemma ColumbiaMockCheck(certificateId: string, projectDescription: Option<string>, now: int, year: int)
    ensures var resp := MockCheckResult(
        ComplianceCheckRequest(certificateId, ColumbiaComplianceRequirements(projectDescription).requirements), now, year);
      resp.results.Keys == {"generalLiability", "workersCompensation"}
      && resp.overallResult == Compliant
      && resp.certificateId == certificateId
      && resp.results["generalLiability"].limitsCheck.value["eachOccurrence"].required == 2000000
      && resp.results["generalLiability"].limitsCheck.value["generalAggregate"].required == 4000000
      && resp.results["generalLiability"].flagsCheck.value["additionalInsured"].required
  {
    var rs := ColumbiaComplianceRequirements(projectDescription).requirements;
    var resp := MockCheckResult(ComplianceCheckRequest(certificateId, rs), now, year);
    var gl := GlCheck(rs.generalLiability.value, year, now + 365 * 86400000);
    assert resp.results["generalLiability"] == gl;
  }
}
