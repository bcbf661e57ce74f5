/**
 * The Brokermatic Smart COI client in mock mode: the requirement and
 * compliance-check shapes, the constructor's mock decision, the routing of
 * mock requests, the mock certificate and the mock compliance check.
 * The clock, the random suffixes and the 500 ms delay are parameters or left out.
 */
module SmartCoiClient {
  import opened Common
  import Text
  import Dates

  // ---------------------------------------------------------------- requirements

  datatype GlLimits = GlLimits(eachOccurrence: int, generalAggregate: int)
  datatype AutoLimits = AutoLimits(combinedSingleLimit: int)
  datatype UmbrellaLimits = UmbrellaLimits(eachOccurrence: int)

  datatype GlRequirement = GlRequirement(
    required: bool,
    minLimits: Option<GlLimits>,
    requireAdditionalInsured: Option<bool>,
    requireWaiverOfSubrogation: Option<bool>,
    requirePrimaryNonContributory: Option<bool>)

  datatype AutoRequirement = AutoRequirement(required: bool, minLimits: Option<AutoLimits>)

  datatype WcRequirement = WcRequirement(
    required: bool,
    requireStatutoryLimits: Option<bool>,
    requireWaiverOfSubrogation: Option<bool>)

  datatype UmbrellaRequirement = UmbrellaRequirement(required: bool, minLimits: Option<UmbrellaLimits>)

  /** `ComplianceRequirement['requirements']`: every coverage entry is optional. */
  datatype Requirements = Requirements(
    generalLiability: Option<GlRequirement>,
    autoLiability: Option<AutoRequirement>,
    workersCompensation: Option<WcRequirement>,
    umbrellaLiability: Option<UmbrellaRequirement>)

  /** `ComplianceRequirement`; `insuredName` is optional here because
      the Columbia requirements object does not carry it. */
  datatype ComplianceRequirement = ComplianceRequirement(
    holderId: string,
    insuredName: Option<string>,
    projectDescription: string,
    deadline: Option<string>,
    requirements: Requirements)

  datatype ComplianceCheckRequest = ComplianceCheckRequest(certificateId: string, requirements: Requirements)

  // ---------------------------------------------------------------- check results

  datatype CoverageStatus = Pass | Fail | Warning
  datatype OverallResult = Compliant | NonCompliant | Partial

  datatype LimitCheck = LimitCheck(required: int, actual: int, pass: bool)
  datatype FlagCheck = FlagCheck(required: bool, actual: bool, pass: bool)

  datatype CoverageCheck = CoverageCheck(
    status: CoverageStatus,
    policyNumber: Option<string>,
    expirationDate: Option<int>,
    limitsCheck: Option<map<string, LimitCheck>>,
    flagsCheck: Option<map<string, FlagCheck>>)

  datatype ComplianceCheckResponse = ComplianceCheckResponse(
    certificateId: string,
    overallResult: OverallResult,
    checkedAt: int,
    results: map<string, CoverageCheck>)

  // ---------------------------------------------------------------- certificates and webhooks

  datatype Coverage = Coverage(coverageType: string, insurerName: string, policyNumber: string)

  /** The Brokermatic `Certificate` (addresses and document links left out);
      `namedInsured` is the insured's name, or None when the object is missing. */
  datatype BmCertificate = BmCertificate(
    id: string,
    certificateNumber: string,
    status: string,
    complianceStatus: string,
    effectiveDate: int,
    expirationDate: int,
    daysUntilExpiration: int,
    namedInsured: Option<string>,
    coverages: seq<Coverage>)

  datatype FieldChange = FieldChange(field: string)
  datatype PayloadGap = PayloadGap(gapType: string, message: string, severity: string)

  /** `WebhookPayload`; every member of `data` may be missing in a real request. */
  datatype WebhookData = WebhookData(
    certificate: Option<BmCertificate>,
    requestId: Option<string>,
    changes: Option<seq<FieldChange>>,
    daysRemaining: Option<int>,
    gaps: Option<seq<PayloadGap>>)

  datatype WebhookPayload = WebhookPayload(id: string, event: string, timestamp: string, data: WebhookData)

  // ---------------------------------------------------------------- constructor

  const MockApiKey: string := "mock_api_key"
  const DefaultBaseUrl: string := "https://api.brokermatic.ai/v1"

  datatype ClientConfig = ClientConfig(apiKey: string, baseUrl: string, useMock: bool)

  /** The constructor: the key and URL fall back to the environment and then to
      fixed defaults, but mock mode looks only at the `apiKey` argument. */
  function NewClient(apiKey: Option<string>, baseUrl: Option<string>,
                     envApiKey: Option<string>, envApiUrl: Option<string>): (c: ClientConfig)
    ensures c.useMock <==> !Truthy(apiKey) || apiKey.value == MockApiKey
    ensures Truthy(apiKey) ==> c.apiKey == apiKey.value
    ensures !Truthy(apiKey) && Truthy(envApiKey) ==> c.apiKey == envApiKey.value
    ensures !Truthy(apiKey) && !Truthy(envApiKey) ==> c.apiKey == MockApiKey
    ensures c.baseUrl == OrElse(baseUrl, OrElse(envApiUrl, DefaultBaseUrl))
  {
    ClientConfig(
      OrElse(apiKey, OrElse(envApiKey, MockApiKey)),
      OrElse(baseUrl, OrElse(envApiUrl, DefaultBaseUrl)),
      !Truthy(apiKey) || apiKey.value == MockApiKey)
  }

  /** The exported singleton is built without arguments, so it is mocked
      whatever the environment says, even when it carries a real key. */
  lemma SingletonIsMocked(envApiKey: Option<string>, envApiUrl: Option<string>)
    ensures NewClient(None, None, envApiKey, envApiUrl).useMock
    ensures Truthy(envApiKey) ==> NewClient(None, None, envApiKey, envApiUrl).apiKey == envApiKey.value
  {
  }

  /** The mock decision does not depend on the environment. */
  lemma MockIgnoresEnvironment(apiKey: Option<string>, baseUrl: Option<string>,
                               e1: Option<string>, u1: Option<string>, e2: Option<string>, u2: Option<string>)
    ensures NewClient(apiKey, baseUrl, e1, u1).useMock == NewClient(apiKey, baseUrl, e2, u2).useMock
  {
  }

  // ---------------------------------------------------------------- mock compliance check

  const DefaultGlEachOccurrence: int := 1000000
  const DefaultGlAggregate: int := 2000000
  const DefaultAutoCsl: int := 1000000

  /** JavaScript `x || d` on a number: a missing or zero value takes the default. */
  function NumberOr(x: Option<int>, d: int): (r: int)
    ensures x.Some? && x.value != 0 ==> r == x.value
    ensures x.None? || x.value == 0 ==> r == d
  {
    if x.Some? && x.value != 0 then x.value else d
  }

  predicate GlRequired(r: Requirements) { r.generalLiability.Some? && r.generalLiability.value.required }
  predicate WcRequired(r: Requirements) { r.workersCompensation.Some? && r.workersCompensation.value.required }
  predicate AutoRequired(r: Requirements) { r.autoLiability.Some? && r.autoLiability.value.required }

  function GlMinEach(gl: GlRequirement): Option<int> {
    if gl.minLimits.Some? then Some(gl.minLimits.value.eachOccurrence) else None
  }

  function GlMinAggregate(gl: GlRequirement): Option<int> {
    if gl.minLimits.Some? then Some(gl.minLimits.value.generalAggregate) else None
  }

  function AutoMin(a: AutoRequirement): Option<int> {
    if a.minLimits.Some? then Some(a.minLimits.value.combinedSingleLimit) else None
  }

  /** Every limit and flag check in a result passes. */
  predicate ChecksPass(c: CoverageCheck) {
    (c.limitsCheck.Some? ==> forall k :: k in c.limitsCheck.value ==> c.limitsCheck.value[k].pass)
    && (c.flagsCheck.Some? ==> forall k :: k in c.flagsCheck.value ==> c.flagsCheck.value[k].pass)
  }

  function PolicyNumber(prefix: string, year: int): string {
    prefix + "-" + Text.IntToString(year) + "-001"
  }

  /** The general-liability entry: the required limits fall back to $1M / $2M,
      the flags to false, and the mocked policy meets all of them. */
  function GlCheck(gl: GlRequirement, year: int, expires: int): (c: CoverageCheck)
    ensures c.status == Pass && ChecksPass(c)
    ensures c.limitsCheck.Some? && c.flagsCheck.Some?
    ensures c.limitsCheck.value.Keys == {"eachOccurrence", "generalAggregate"}
    ensures c.limitsCheck.value["eachOccurrence"].required == NumberOr(GlMinEach(gl), DefaultGlEachOccurrence)
    ensures c.limitsCheck.value["generalAggregate"].required == NumberOr(GlMinAggregate(gl), DefaultGlAggregate)
    ensures c.flagsCheck.value.Keys == {"additionalInsured", "waiverOfSubrogation"}
    ensures c.flagsCheck.value["additionalInsured"].required == gl.requireAdditionalInsured.GetOr(false)
    ensures c.flagsCheck.value["waiverOfSubrogation"].required == gl.requireWaiverOfSubrogation.GetOr(false)
  {
    CoverageCheck(
      Pass, Some(PolicyNumber("GL", year)), Some(expires),
      Some(map["eachOccurrence" := LimitCheck(NumberOr(GlMinEach(gl), DefaultGlEachOccurrence), 2000000, true),
               "generalAggregate" := LimitCheck(NumberOr(GlMinAggregate(gl), DefaultGlAggregate), 4000000, true)]),
      Some(map["additionalInsured" := FlagCheck(gl.requireAdditionalInsured.GetOr(false), true, true),
               "waiverOfSubrogation" := FlagCheck(gl.requireWaiverOfSubrogation.GetOr(false), true, true)]))
  }

  /** The workers' compensation entry: a single waiver-of-subrogation flag. */
  function WcCheck(wc: WcRequirement, year: int, expires: int): (c: CoverageCheck)
    ensures c.status == Pass && ChecksPass(c)
    ensures c.limitsCheck.None? && c.flagsCheck.Some? && c.flagsCheck.value.Keys == {"waiverOfSubrogation"}
    ensures c.flagsCheck.value["waiverOfSubrogation"].required == wc.requireWaiverOfSubrogation.GetOr(false)
  {
    CoverageCheck(
      Pass, Some(PolicyNumber("WC", year)), Some(expires), None,
      Some(map["waiverOfSubrogation" := FlagCheck(wc.requireWaiverOfSubrogation.GetOr(false), true, true)]))
  }

  /** The auto entry: a combined single limit falling back to $1M, met exactly by the mocked $1M. */
  function AutoCheck(a: AutoRequirement, year: int, expires: int): (c: CoverageCheck)
    ensures c.status == Pass && ChecksPass(c)
    ensures c.flagsCheck.None? && c.limitsCheck.Some? && c.limitsCheck.value.Keys == {"combinedSingleLimit"}
    ensures c.limitsCheck.value["combinedSingleLimit"].required == NumberOr(AutoMin(a), DefaultAutoCsl)
  {
    CoverageCheck(
      Pass, Some(PolicyNumber("CA", year)), Some(expires),
      Some(map["combinedSingleLimit" := LimitCheck(NumberOr(AutoMin(a), DefaultAutoCsl), 1000000, true)]),
      None)
  }

  /** The `results` object of `mockComplianceCheck`: one entry per required coverage,
      umbrella never checked, every entry passing. */
  function MockResults(reqs: Requirements, year: int, expires: int): (results: map<string, CoverageCheck>)
    ensures results.Keys <= {"generalLiability", "workersCompensation", "autoLiability"}
    ensures "generalLiability" in results <==> GlRequired(reqs)
    ensures "workersCompensation" in results <==> WcRequired(reqs)
    ensures "autoLiability" in results <==> AutoRequired(reqs)
    ensures forall k :: k in results ==> results[k].status == Pass && ChecksPass(results[k])
  {
    var gl: map<string, CoverageCheck> :=
      if GlRequired(reqs) then map["generalLiability" := GlCheck(reqs.generalLiability.value, year, expires)] else map[];
    var wc := if WcRequired(reqs) then gl["workersCompensation" := WcCheck(reqs.workersCompensation.value, year, expires)] else gl;
    if AutoRequired(reqs) then wc["autoLiability" := AutoCheck(reqs.autoLiability.value, year, expires)] else wc
  }

  /** The verdict `every` derives: compliant exactly when every entry passes. */
  function Verdict(results: map<string, CoverageCheck>): (v: OverallResult)
    ensures v == Compliant <==> forall k :: k in results ==> results[k].status == Pass
  {
    if forall k :: k in results ==> results[k].status == Pass then Compliant else NonCompliant
  }

  /** The response `mockComplianceCheck` builds; the results expire a year from `now`. */
  function MockCheckResult(request: ComplianceCheckRequest, now: int, year: int): (resp: ComplianceCheckResponse)
    ensures resp.certificateId == request.certificateId && resp.checkedAt == now
    ensures resp.results == MockResults(request.requirements, year, now + 365 * Dates.DayMs)
  {
    var results := MockResults(request.requirements, year, now + 365 * Dates.DayMs);
    ComplianceCheckResponse(request.certificateId, Verdict(results), now, results)
  }

  /** The mock always answers compliant, whatever the requirements. */
  lemma MockAlwaysCompliant(request: ComplianceCheckRequest, now: int, year: int)
    ensures MockCheckResult(request, now, year).overallResult == Compliant
  {
  }

  /** `mockComplianceCheck`: fills `results` key by key for each required coverage,
      then derives the overall verdict with `every`. `now` and `year` stand for the clock. */
  method MockComplianceCheck(request: ComplianceCheckRequest, now: int, year: int) returns (resp: ComplianceCheckResponse)
    ensures resp == MockCheckResult(request, now, year)
  {
    var results: map<string, CoverageCheck> := map[];
    var expires := now + 365 * Dates.DayMs;
    var reqs := request.requirements;
    if GlRequired(reqs) {
      results := results["generalLiability" := GlCheck(reqs.generalLiability.value, year, expires)];
    }
    if WcRequired(reqs) {
      results := results["workersCompensation" := WcCheck(reqs.workersCompensation.value, year, expires)];
    }
    if AutoRequired(reqs) {
      results := results["autoLiability" := AutoCheck(reqs.autoLiability.value, year, expires)];
    }
    assert results == MockResults(reqs, year, expires);
    var allPass := forall k :: k in results ==> results[k].status == Pass;
    resp := ComplianceCheckResponse(request.certificateId, if allPass then Compliant else NonCompliant, now, results);
  }

  // ---------------------------------------------------------------- mock certificate

  /** The part of the clock `mockCertificate` reads: now, the local year and
      the instants of 1 January of this year and of the next. */
  datatype Clock = Clock(now: int, year: int, yearStart: int, nextYearStart: int)

  /** `mockCertificate`'s day count: whole days with `Math.floor`, not `Math.ceil`. */
  function MockDaysUntilExpiration(clock: Clock): (d: int)
    ensures d * Dates.DayMs <= clock.nextYearStart - clock.now < (d + 1) * Dates.DayMs
  {
    Dates.FloorDiv(clock.nextYearStart - clock.now, Dates.DayMs)
  }

  /** The mock certificate's day count is one less than `daysUntil` would show
      for the same expiration, except at an exact day boundary. */
  lemma MockDaysUseFloor(clock: Clock)
    ensures var x := clock.nextYearStart - clock.now;
      (x % Dates.DayMs == 0 ==> MockDaysUntilExpiration(clock) == Dates.DaysBetween(clock.now, clock.nextYearStart))
      && (x % Dates.DayMs != 0 ==> MockDaysUntilExpiration(clock) == Dates.DaysBetween(clock.now, clock.nextYearStart) - 1)
  {
    Dates.FloorVersusCeil(clock.nextYearStart - clock.now, Dates.DayMs);
  }

  /** `mockCertificate`; `rand4` stands for the random certificate-number suffix. */
  function MockCertificate(clock: Clock, rand4: string): (c: BmCertificate)
    ensures c.status == "active" && c.complianceStatus == "compliant"
    ensures c.expirationDate == clock.nextYearStart && c.effectiveDate == clock.yearStart
    ensures c.daysUntilExpiration == MockDaysUntilExpiration(clock)
  {
    var y := Text.IntToString(clock.year);
    BmCertificate(
      "cert_" + Text.IntToString(clock.now),
      "CERT-" + y + "-" + rand4,
      "active", "compliant",
      clock.yearStart, clock.nextYearStart,
      MockDaysUntilExpiration(clock),
      Some("ABC Construction LLC"),
      [Coverage("general_liability", "Hartford Fire Insurance", "GL-" + y + "-001"),
       Coverage("workers_compensation", "State Compensation Insurance Fund", "WC-" + y + "-001"),
       Coverage("commercial_auto", "Progressive Insurance", "CA-" + y + "-001")])
  }

  // ---------------------------------------------------------------- mock request routing

  /** The parsed request body: absent, one of the shapes the mock reads, or anything else. */
  datatype Body = NoBody | CheckBody(check: ComplianceCheckRequest)
                | SubscriptionBody(url: string, events: seq<string>) | OtherBody

  datatype MockResponse =
    | RequirementResponse(requestStatus: string, requestedAt: int)
    | CheckResponse(check: ComplianceCheckResponse)
    | DocumentResponse(documentUrl: string, expiresAt: int)
    | CertificateList(data: seq<BmCertificate>, hasMore: bool, total: int)
    | SubscriptionResponse(webhookUrl: Option<string>, events: Option<seq<string>>, status: string, createdAt: int)
    | HolderSummary(holderId: string, holderName: string, holderStatus: string)

  datatype Outcome = Ok(response: MockResponse) | Thrown(message: string)

  /** `mockRequest`: routes on the method (default GET) and the endpoint;
      anything unrecognised throws. */
  function MockRequest(httpMethod: Option<string>, endpoint: string, body: Body, clock: Clock, rand4: string): (r: Outcome)
    ensures (OrElse(httpMethod, "GET") == "POST" && endpoint == "/compliance/requirements")
              ==> r == Ok(RequirementResponse("pending", clock.now))
    ensures (OrElse(httpMethod, "GET") == "POST" && endpoint == "/compliance/check" && body.CheckBody?)
              ==> r == Ok(CheckResponse(MockCheckResult(body.check, clock.now, clock.year)))
    ensures (OrElse(httpMethod, "GET") == "GET" && Text.StartsWith(endpoint, "/certificates"))
              ==> r.Ok? && (r.response.DocumentResponse? <==> Text.Contains(endpoint, "/document"))
    ensures (OrElse(httpMethod, "GET") == "POST" && endpoint == "/webhooks")
              ==> (r.Thrown? <==> body.NoBody?)
                  && (r.Ok? ==> r.response.SubscriptionResponse? && r.response.status == "active" && r.response.createdAt == clock.now)
    ensures (OrElse(httpMethod, "GET") == "GET" && Text.StartsWith(endpoint, "/holders/") && !Text.StartsWith(endpoint, "/certificates"))
              ==> r == Ok(HolderSummary("ch_columbia_gc", "Columbia University", "compliant"))
    ensures (OrElse(httpMethod, "GET") != "GET" && OrElse(httpMethod, "GET") != "POST")
              ==> r == Thrown("Mock endpoint not implemented: " + OrElse(httpMethod, "GET") + " " + endpoint)
  {
    var m := OrElse(httpMethod, "GET");
    if m == "POST" && endpoint == "/compliance/requirements" then
      Ok(RequirementResponse("pending", clock.now))
    else if m == "POST" && endpoint == "/compliance/check" then
      (if body.CheckBody? then Ok(CheckResponse(MockCheckResult(body.check, clock.now, clock.year)))
       else Thrown("TypeError"))
    else if m == "GET" && Text.StartsWith(endpoint, "/certificates") then
      (if Text.Contains(endpoint, "/document") then Ok(DocumentResponse("/api/mock/certificate.pdf", clock.now + 15 * 60 * 1000))
       else Ok(CertificateList([MockCertificate(clock, rand4)], false, 1)))
    else if m == "POST" && endpoint == "/webhooks" then
      (match body
       case NoBody => Thrown("TypeError")
       case SubscriptionBody(u, e) => Ok(SubscriptionResponse(Some(u), Some(e), "active", clock.now))
       case _ => Ok(SubscriptionResponse(None, None, "active", clock.now)))
    else if m == "GET" && Text.StartsWith(endpoint, "/holders/") then
      Ok(HolderSummary("ch_columbia_gc", "Columbia University", "compliant"))
    else
      Thrown("Mock endpoint not implemented: " + m + " " + endpoint)
  }
}
