/**
 * The Brokermatic webhook endpoint: a signature gate, then a dispatch on the event
 * name to handlers that update the certificate requests and vendors linked to the
 * certificate named in the payload.  The endpoint answers 200 whatever happens
 * after the gate, so that Brokermatic never retries.
 *
 * HMAC verification is the parameter `verify(rawBody, signature, secret)`, the
 * JSON parse of the body is given as `payload` (None when it throws), and `now`
 * stands for each `new Date()`.
 */
module BrokermaticWebhook {
  import opened Common
  import opened SmartCoiClient
  import opened Records

  const MockWebhookSecret: string := "mock_webhook_secret"

  /** `BROKERMATIC_WEBHOOK_SECRET || 'mock_webhook_secret'`. */
  function WebhookSecret(secretVariable: Option<string>): (s: string)
    ensures Truthy(secretVariable) ==> s == secretVariable.value
    ensures !Truthy(secretVariable) ==> s == MockWebhookSecret
  {
    OrElse(secretVariable, MockWebhookSecret)
  }

  datatype Response = Response(status: int, received: bool, error: Option<string>)

  const Received: Response := Response(200, true, None)
  const ErrorLogged: Response := Response(200, true, Some("Processing error logged"))
  const InvalidSignature: Response := Response(401, false, Some("Invalid signature"))

  // ---------------------------------------------------------------- matching requests

  /** The `findMany` filter `complianceResult.certificate.id == certificateId`. */
  predicate MatchesCertificate(r: CertificateRequest, certificateId: string) {
    r.complianceResult.Some? && r.complianceResult.value.certificate.Some?
    && r.complianceResult.value.certificate.value.id == certificateId
  }

  /** What a handler writes into each matching request. */
  datatype RequestEdit =
    | KeepRequest
      /** `certificate.updated`: the new certificate and `lastUpdated`, over the stored result. */
    | RefreshCertificate(certificate: BmCertificate, at: int)
      /** `compliance.gap`: status `non_compliant`, and the gaps and `lastChecked` over the stored result. */
    | RecordGaps(gaps: Option<seq<PayloadGap>>, at: int)

  function Edited(r: CertificateRequest, e: RequestEdit): (q: CertificateRequest)
    requires r.complianceResult.Some?
    ensures q.id == r.id && q.vendorId == r.vendorId && q.brokermaticRequestId == r.brokermaticRequestId
    ensures q.createdAt == r.createdAt && q.uploadedAt == r.uploadedAt && q.validatedAt == r.validatedAt
    ensures q.status == (if e.RecordGaps? then "non_compliant" else r.status)
    ensures q.complianceResult.Some?
  {
    var result := r.complianceResult.value;
    match e
    case KeepRequest => r
    case RefreshCertificate(c, t) =>
      r.(complianceResult := Some(result.(certificate := Some(c), lastUpdated := Some(t))))
    case RecordGaps(g, t) =>
      r.(status := "non_compliant", complianceResult := Some(result.(gaps := g, lastChecked := Some(t))))
  }

  /** The request table after a handler: every matching request edited, the rest as they were. */
  function EditRequests(rs: seq<CertificateRequest>, certificateId: string, e: RequestEdit): (qs: seq<CertificateRequest>)
    ensures SameRequesters(rs, qs)
    ensures forall i :: 0 <= i < |rs| ==>
      qs[i] == if MatchesCertificate(rs[i], certificateId) then Edited(rs[i], e) else rs[i]
  {
    seq(|rs|, i requires 0 <= i < |rs| =>
      if MatchesCertificate(rs[i], certificateId) then Edited(rs[i], e) else rs[i])
  }

  /** The vendors of the matching requests. */
  function MatchedVendorIds(rs: seq<CertificateRequest>, certificateId: string): set<string>
    decreases |rs|
  {
    if rs == [] then {}
    else
      var r := rs[|rs| - 1];
      MatchedVendorIds(rs[..|rs| - 1], certificateId)
      + (if MatchesCertificate(r, certificateId) then {r.vendorId} else {})
  }

  /** A vendor is touched exactly when one of its requests matches. */
  lemma {:induction false} MatchedVendorIdsExact(rs: seq<CertificateRequest>, certificateId: string, id: string)
    ensures id in MatchedVendorIds(rs, certificateId) <==>
      exists k :: 0 <= k < |rs| && rs[k].vendorId == id && MatchesCertificate(rs[k], certificateId)
    decreases |rs|
  {
    if rs != [] {
      var n := |rs| - 1;
      MatchedVendorIdsExact(rs[..n], certificateId, id);
      assert forall k :: 0 <= k < n ==> rs[..n][k] == rs[k];
    }
  }

  /** The vendor table after a handler: with a patch, every vendor of a matching request patched. */
  function VendorsAfter(vs: seq<Vendor>, ids: set<string>, patch: Option<VendorPatch>): (ws: seq<Vendor>)
    ensures SameIds(vs, ws)
    ensures patch.None? ==> ws == vs
  {
    match patch
    case None => vs
    case Some(p) => PatchVendors(vs, ids, p)
  }

  lemma MatchedStep(vs: seq<Vendor>, rs: seq<CertificateRequest>, certificateId: string, patch: Option<VendorPatch>, i: int)
    requires 0 <= i < |rs|
    ensures MatchesCertificate(rs[i], certificateId) && patch.Some? ==>
      VendorsAfter(vs, MatchedVendorIds(rs[..i + 1], certificateId), patch)
      == UpdateVendor(VendorsAfter(vs, MatchedVendorIds(rs[..i], certificateId), patch), rs[i].vendorId, patch.value)
    ensures !MatchesCertificate(rs[i], certificateId) || patch.None? ==>
      VendorsAfter(vs, MatchedVendorIds(rs[..i + 1], certificateId), patch)
      == VendorsAfter(vs, MatchedVendorIds(rs[..i], certificateId), patch)
  {
    assert rs[..i + 1][..i] == rs[..i];
    if patch.Some? {
      PatchOneMore(vs, MatchedVendorIds(rs[..i], certificateId), rs[i].vendorId, patch.value);
    }
  }

  /** The request table part-way through a handler loop: the first `i` requests edited. */
  function EditedUpTo(rs: seq<CertificateRequest>, certificateId: string, e: RequestEdit, i: int): (qs: seq<CertificateRequest>)
    requires 0 <= i <= |rs|
    ensures |qs| == |rs|
  {
    seq(|rs|, j requires 0 <= j < |rs| =>
      if j < i && MatchesCertificate(rs[j], certificateId) then Edited(rs[j], e) else rs[j])
  }

  lemma EditedUpToStep(rs: seq<CertificateRequest>, certificateId: string, e: RequestEdit, i: int)
    requires 0 <= i < |rs|
    ensures EditedUpTo(rs, certificateId, e, i + 1)
         == EditedUpTo(rs, certificateId, e, i)[i := if MatchesCertificate(rs[i], certificateId) then Edited(rs[i], e) else rs[i]]
  {
  }

  lemma EditedUpToEnds(rs: seq<CertificateRequest>, certificateId: string, e: RequestEdit)
    ensures EditedUpTo(rs, certificateId, e, 0) == rs
    ensures EditedUpTo(rs, certificateId, e, |rs|) == EditRequests(rs, certificateId, e)
  {
  }

  /** One iteration of a handler loop: request `rs[i]`, if it matches, is edited and its vendor patched. */
  method EditMatchingRequest(db: Database, rs: seq<CertificateRequest>, certificateId: string,
                             e: RequestEdit, patch: Option<VendorPatch>, i: int)
    requires 0 <= i < |rs| && |db.requests| == |rs| && db.requests[i] == rs[i]
    modifies db
    ensures db.certificates == old(db.certificates)
    ensures db.requests == old(db.requests)[i := if MatchesCertificate(rs[i], certificateId) then Edited(rs[i], e) else rs[i]]
    ensures MatchesCertificate(rs[i], certificateId) && patch.Some? ==>
      db.vendors == UpdateVendor(old(db.vendors), rs[i].vendorId, patch.value)
    ensures !MatchesCertificate(rs[i], certificateId) || patch.None? ==> db.vendors == old(db.vendors)
  {
    var request := rs[i];
    if MatchesCertificate(request, certificateId) {
      db.requests := db.requests[i := Edited(request, e)];
      if patch.Some? {
        db.vendors := UpdateVendor(db.vendors, request.vendorId, patch.value);
      }
    }
  }

  /** One iteration, stated against the loop's invariant: `i` requests done becomes `i + 1`. */
  method UpdateStep(db: Database, rs: seq<CertificateRequest>, vs: seq<Vendor>, certificateId: string,
                    e: RequestEdit, patch: Option<VendorPatch>, i: int)
    requires 0 <= i < |rs|
    requires db.requests == EditedUpTo(rs, certificateId, e, i)
    requires db.vendors == VendorsAfter(vs, MatchedVendorIds(rs[..i], certificateId), patch)
    modifies db
    ensures db.certificates == old(db.certificates)
    ensures db.requests == EditedUpTo(rs, certificateId, e, i + 1)
    ensures db.vendors == VendorsAfter(vs, MatchedVendorIds(rs[..i + 1], certificateId), patch)
  {
    MatchedStep(vs, rs, certificateId, patch, i);
    EditedUpToStep(rs, certificateId, e, i);
    EditMatchingRequest(db, rs, certificateId, e, patch, i);
  }

  /** The loop shared by the `updated`, `expiring`, `expired` and `gap` handlers. */
  method UpdateMatchingRequests(db: Database, certificateId: string, e: RequestEdit, patch: Option<VendorPatch>)
    requires db.Valid()
    modifies db
    ensures db.Valid()
    ensures db.certificates == old(db.certificates)
    ensures db.requests == EditRequests(old(db.requests), certificateId, e)
    ensures db.vendors == VendorsAfter(old(db.vendors), MatchedVendorIds(old(db.requests), certificateId), patch)
  {
    var rs := db.requests;
    var vs := db.vendors;
    EditedUpToEnds(rs, certificateId, e);
    assert rs[..0] == [];
    var i := 0;
    while i < |rs|
      invariant 0 <= i <= |rs|
      invariant db.certificates == old(db.certificates)
      invariant db.requests == EditedUpTo(rs, certificateId, e, i)
      invariant db.vendors == VendorsAfter(vs, MatchedVendorIds(rs[..i], certificateId), patch)
    {
      UpdateStep(db, rs, vs, certificateId, e, patch, i);
      i := i + 1;
    }
    assert rs[..|rs|] == rs;
    EditKeepsLinks(vs, db.certificates, rs, certificateId, e, patch);
  }

  /** Editing the matching requests and patching their vendors keeps every link. */
  lemma EditKeepsLinks(vs: seq<Vendor>, cs: seq<Certificate>, rs: seq<CertificateRequest>,
                       certificateId: string, e: RequestEdit, patch: Option<VendorPatch>)
    requires Linked(vs, cs, rs)
    ensures Linked(VendorsAfter(vs, MatchedVendorIds(rs, certificateId), patch), cs, EditRequests(rs, certificateId, e))
  {
    LinkedAfterUpdate(vs, cs, rs, VendorsAfter(vs, MatchedVendorIds(rs, certificateId), patch), cs, EditRequests(rs, certificateId, e));
  }

  // ---------------------------------------------------------------- certificate.issued

  /** `findFirst({ where: { brokermaticRequestId } })`: the first stored request with that id. */
  function FirstWithRequestId(rs: seq<CertificateRequest>, requestId: string): (r: Option<nat>)
    ensures r.Some? ==> r.value < |rs| && rs[r.value].brokermaticRequestId == Some(requestId)
    ensures r.Some? ==> forall k :: 0 <= k < r.value ==> rs[k].brokermaticRequestId != Some(requestId)
    ensures r.None? ==> forall k :: 0 <= k < |rs| ==> rs[k].brokermaticRequestId != Some(requestId)
  {
    if rs == [] then None
    else if rs[0].brokermaticRequestId == Some(requestId) then Some(0)
    else
      var rest := FirstWithRequestId(rs[1..], requestId);
      assert forall k :: 1 <= k < |rs| ==> rs[k] == rs[1..][k - 1];
      match rest
      case None => None
      case Some(k) => Some(k + 1)
  }

  /** The request once its certificate is issued. */
  function IssuedRequest(r: CertificateRequest, c: BmCertificate, now: int): CertificateRequest {
    r.(status := if c.complianceStatus == "compliant" then "compliant" else "non_compliant",
       uploadedAt := Some(now), validatedAt := Some(now),
       complianceResult := Some(ComplianceResult(Some(c.complianceStatus), Some(c), None, None, None, None)))
  }

  function IssuedPatch(c: BmCertificate, now: int): VendorPatch {
    VendorPatch(Some(c.complianceStatus), Some(if c.complianceStatus == "compliant" then Some(now) else None))
  }

  /** The tables after `certificate.issued`. */
  function AfterIssued(t: Tables, c: BmCertificate, requestId: Option<string>, now: int): Tables
    requires TablesLinked(t)
  {
    if !Truthy(requestId) then t
    else
      match FirstWithRequestId(t.requests, requestId.value)
      case None => t
      case Some(k) =>
        Tables(UpdateVendor(t.vendors, t.requests[k].vendorId, IssuedPatch(c, now)),
               t.certificates,
               t.requests[k := IssuedRequest(t.requests[k], c, now)])
  }

  /** `handleCertificateIssued`. */
  method HandleCertificateIssued(db: Database, c: BmCertificate, requestId: Option<string>, now: int)
    requires db.Valid()
    modifies db
    ensures db.Valid()
    ensures Tables(db.vendors, db.certificates, db.requests)
            == AfterIssued(Tables(old(db.vendors), old(db.certificates), old(db.requests)), c, requestId, now)
  {
    if Truthy(requestId) {
      var found := FirstWithRequestId(db.requests, requestId.value);
      if found.Some? {
        var certRequest := db.requests[found.value];
        ghost var vs, rs := db.vendors, db.requests;
        db.requests := db.requests[found.value := IssuedRequest(certRequest, c, now)];
        db.vendors := UpdateVendor(db.vendors, certRequest.vendorId, IssuedPatch(c, now));
        assert SameRequesters(rs, db.requests);
        LinkedAfterUpdate(vs, db.certificates, rs, db.vendors, db.certificates, db.requests);
      }
    }
  }

  // ---------------------------------------------------------------- the other handlers

  /** `changes?.some(c => c.field === 'complianceStatus')`. */
  predicate ComplianceChanged(changes: Option<seq<FieldChange>>) {
    changes.Some? && exists k :: 0 <= k < |changes.value| && changes.value[k].field == "complianceStatus"
  }

  /** The request edit and the vendor patch of each looping handler. */
  function UpdatedPatch(c: BmCertificate, changes: Option<seq<FieldChange>>): Option<VendorPatch> {
    if ComplianceChanged(changes) then Some(VendorPatch(Some(c.complianceStatus), None)) else None
  }
  const ExpiringPatch: VendorPatch := VendorPatch(Some("expiring_soon"), None)
  const ExpiredPatch: VendorPatch := VendorPatch(Some("expired"), Some(None))
  const GapPatch: VendorPatch := VendorPatch(Some("non_compliant"), Some(None))

  /** The tables after one of the looping handlers. */
  function AfterMatching(t: Tables, certificateId: string, e: RequestEdit, patch: Option<VendorPatch>): Tables {
    Tables(VendorsAfter(t.vendors, MatchedVendorIds(t.requests, certificateId), patch),
           t.certificates,
           EditRequests(t.requests, certificateId, e))
  }

  // ---------------------------------------------------------------- POST

  /** The names the dispatch recognises. */
  const KnownEvents: set<string> := {"certificate.issued", "certificate.updated", "certificate.expiring",
                                     "certificate.expired", "policy.cancelled", "policy.renewed", "compliance.gap"}

  /** A handler throws before writing anything: every handler reads `certificate.id`,
      and all but the `updated` one read `certificate.namedInsured.name`, in their first log line. */
  predicate HandlerThrows(p: WebhookPayload) {
    p.event in KnownEvents
    && (p.data.certificate.None?
        || (p.event !in {"certificate.updated", "policy.cancelled", "policy.renewed"}
            && p.data.certificate.value.namedInsured.None?))
  }

  /** The tables after the dispatch of a payload whose handler does not throw. */
  function AfterEvent(t: Tables, p: WebhookPayload, now: int): Tables
    requires TablesLinked(t) && !HandlerThrows(p)
  {
    if p.event !in KnownEvents then t
    else
      var c := p.data.certificate.value;
      if p.event == "certificate.issued" then AfterIssued(t, c, p.data.requestId, now)
      else if p.event in {"certificate.updated", "policy.cancelled", "policy.renewed"} then
        AfterMatching(t, c.id, RefreshCertificate(c, now), UpdatedPatch(c, p.data.changes))
      else if p.event == "certificate.expiring" then AfterMatching(t, c.id, KeepRequest, Some(ExpiringPatch))
      else if p.event == "certificate.expired" then AfterMatching(t, c.id, KeepRequest, Some(ExpiredPatch))
      else AfterMatching(t, c.id, RecordGaps(p.data.gaps, now), Some(GapPatch))
  }

  /** The gate: a present, non-empty signature header must verify. */
  predicate SignatureRejected(rawBody: string, signature: Option<string>, secretVariable: Option<string>,
                              verify: (string, string, string) -> bool) {
    Truthy(signature) && !verify(rawBody, signature.value, WebhookSecret(secretVariable))
  }

  /** The response and the tables after `POST`. */
  function Outcome(t: Tables, rawBody: string, payload: Option<WebhookPayload>, signature: Option<string>,
                   secretVariable: Option<string>, verify: (string, string, string) -> bool, now: int): (Response, Tables)
    requires TablesLinked(t)
  {
    match payload
    case None => (ErrorLogged, t)
    case Some(p) =>
      if SignatureRejected(rawBody, signature, secretVariable, verify) then (InvalidSignature, t)
      else if HandlerThrows(p) then (ErrorLogged, t)
      else (Received, AfterEvent(t, p, now))
  }

  /** `POST /api/webhooks/brokermatic`. */
  method Post(db: Database, rawBody: string, payload: Option<WebhookPayload>, signature: Option<string>,
              secretVariable: Option<string>, verify: (string, string, string) -> bool, now: int)
    returns (response: Response)
    requires db.Valid()
    modifies db
    ensures db.Valid()
    ensures (response, Tables(db.vendors, db.certificates, db.requests))
            == Outcome(Tables(old(db.vendors), old(db.certificates), old(db.requests)),
                       rawBody, payload, signature, secretVariable, verify, now)
  {
    if payload.None? {
      return ErrorLogged;
    }
    var p := payload.value;
    var webhookSecret := WebhookSecret(secretVariable);
    if Truthy(signature) && !verify(rawBody, signature.value, webhookSecret) {
      return InvalidSignature;
    }
    if HandlerThrows(p) {
      return ErrorLogged;
    }
    if p.event == "certificate.issued" {
      HandleCertificateIssued(db, p.data.certificate.value, p.data.requestId, now);
    } else if p.event == "certificate.updated" || p.event == "policy.cancelled" || p.event == "policy.renewed" {
      var c := p.data.certificate.value;
      UpdateMatchingRequests(db, c.id, RefreshCertificate(c, now), UpdatedPatch(c, p.data.changes));
    } else if p.event == "certificate.expiring" {
      UpdateMatchingRequests(db, p.data.certificate.value.id, KeepRequest, Some(ExpiringPatch));
    } else if p.event == "certificate.expired" {
      UpdateMatchingRequests(db, p.data.certificate.value.id, KeepRequest, Some(ExpiredPatch));
    } else if p.event == "compliance.gap" {
      var c := p.data.certificate.value;
      UpdateMatchingRequests(db, c.id, RecordGaps(p.data.gaps, now), Some(GapPatch));
    }
    response := Received;
  }

  // ---------------------------------------------------------------- what an event does

  /** Past the gate the endpoint always answers 200 with `received: true`, and a rejected
      signature is answered 401 with nothing written; without a signature header the
      body is processed unverified. */
  lemma ResponseByGate(t: Tables, rawBody: string, p: WebhookPayload, signature: Option<string>,
                       secretVariable: Option<string>, verify: (string, string, string) -> bool, now: int)
    requires TablesLinked(t)
    ensures var (response, u) := Outcome(t, rawBody, Some(p), signature, secretVariable, verify, now);
      (SignatureRejected(rawBody, signature, secretVariable, verify) <==> response.status == 401)
      && (SignatureRejected(rawBody, signature, secretVariable, verify) ==> u == t && !response.received)
      && (!SignatureRejected(rawBody, signature, secretVariable, verify) ==> response.status == 200 && response.received)
    ensures !Truthy(signature) ==> !SignatureRejected(rawBody, signature, secretVariable, verify)
  {
  }

  /** An event name the dispatch does not know changes nothing. */
  lemma UnknownEventChangesNothing(t: Tables, p: WebhookPayload, now: int)
    requires TablesLinked(t) && p.event !in KnownEvents
    ensures !HandlerThrows(p) && AfterEvent(t, p, now) == t
  {
  }

  /** No event touches the certificate table, and every event keeps the links. */
  lemma EventKeepsCertificatesAndLinks(t: Tables, p: WebhookPayload, now: int)
    requires TablesLinked(t) && !HandlerThrows(p)
    ensures AfterEvent(t, p, now).certificates == t.certificates
    ensures TablesLinked(AfterEvent(t, p, now))
  {
    var u := AfterEvent(t, p, now);
    assert SameIds(t.vendors, u.vendors) && SameRequesters(t.requests, u.requests) by {
      if p.event == "certificate.issued" && Truthy(p.data.requestId) {
        var found := FirstWithRequestId(t.requests, p.data.requestId.value);
        if found.Some? {
          assert u.requests == t.requests[found.value := IssuedRequest(t.requests[found.value], p.data.certificate.value, now)];
        }
      }
    }
    LinkedAfterUpdate(t.vendors, t.certificates, t.requests, u.vendors, u.certificates, u.requests);
  }

  /** `certificate.issued` with a known `requestId`: the first request with that id takes the
      certificate's verdict and a fresh result, its vendor takes the certificate's status,
      stamped with `now` only when compliant, and nothing else changes. */
  lemma IssuedEffect(t: Tables, c: BmCertificate, requestId: string, now: int, k: nat, j: int, i: int)
    requires TablesLinked(t) && requestId != ""
    requires FirstWithRequestId(t.requests, requestId) == Some(k)
    requires 0 <= j < |t.vendors| && 0 <= i < |t.requests|
    ensures var u := AfterIssued(t, c, Some(requestId), now);
      (u.requests[k].status == "compliant" <==> c.complianceStatus == "compliant")
      && (u.requests[k].status != "compliant" ==> u.requests[k].status == "non_compliant")
      && u.requests[k].complianceResult == Some(ComplianceResult(Some(c.complianceStatus), Some(c), None, None, None, None))
      && u.requests[k].uploadedAt == Some(now) && u.requests[k].validatedAt == Some(now)
      && (i != k ==> u.requests[i] == t.requests[i])
      && (t.vendors[j].id == t.requests[k].vendorId ==>
            u.vendors[j].insuranceStatus == c.complianceStatus
            && (u.vendors[j].insuranceComplianceAt == Some(now) <==> c.complianceStatus == "compliant")
            && (c.complianceStatus != "compliant" ==> u.vendors[j].insuranceComplianceAt.None?))
      && (t.vendors[j].id != t.requests[k].vendorId ==> u.vendors[j] == t.vendors[j])
      && u.certificates == t.certificates
  {
  }

  /** `certificate.issued` without a `requestId`, or with one no request carries, changes nothing. */
  lemma IssuedWithoutMatch(t: Tables, c: BmCertificate, requestId: Option<string>, now: int)
    requires TablesLinked(t)
    requires !Truthy(requestId) || forall k :: 0 <= k < |t.requests| ==> t.requests[k].brokermaticRequestId != requestId
    ensures AfterIssued(t, c, requestId, now) == t
  {
  }

  /** A vendor of the table after a looping handler: patched exactly when one of its
      requests matches the certificate, untouched otherwise. */
  lemma MatchingVendorEffect(t: Tables, certificateId: string, e: RequestEdit, p: VendorPatch, j: int)
    requires 0 <= j < |t.vendors|
    ensures var u := AfterMatching(t, certificateId, e, Some(p));
      ((exists k :: 0 <= k < |t.requests| && t.requests[k].vendorId == t.vendors[j].id
                    && MatchesCertificate(t.requests[k], certificateId))
         ==> u.vendors[j] == Patched(t.vendors[j], p))
      && (!(exists k :: 0 <= k < |t.requests| && t.requests[k].vendorId == t.vendors[j].id
                      && MatchesCertificate(t.requests[k], certificateId))
         ==> u.vendors[j] == t.vendors[j])
  {
    MatchedVendorIdsExact(t.requests, certificateId, t.vendors[j].id);
  }

  /** `certificate.updated`, `policy.cancelled` and `policy.renewed`: a matching request keeps
      its status and every stored member but `certificate` and `lastUpdated`; vendors change
      only when `changes` names `complianceStatus`, and then only in status. */
  lemma UpdatedEffect(t: Tables, c: BmCertificate, changes: Option<seq<FieldChange>>, now: int, i: int, j: int)
    requires 0 <= i < |t.requests| && 0 <= j < |t.vendors|
    ensures var u := AfterMatching(t, c.id, RefreshCertificate(c, now), UpdatedPatch(c, changes));
      var r, q := t.requests[i], u.requests[i];
      (MatchesCertificate(r, c.id) ==>
         q.status == r.status
         && q.complianceResult == Some(r.complianceResult.value.(certificate := Some(c), lastUpdated := Some(now))))
      && (!MatchesCertificate(r, c.id) ==> q == r)
      && (!ComplianceChanged(changes) ==> u.vendors == t.vendors)
      && (ComplianceChanged(changes) && t.vendors[j].id in MatchedVendorIds(t.requests, c.id) ==>
            u.vendors[j] == t.vendors[j].(insuranceStatus := c.complianceStatus))
      && (t.vendors[j].id !in MatchedVendorIds(t.requests, c.id) ==> u.vendors[j] == t.vendors[j])
  {
  }

  /** `certificate.expiring` marks the matched vendors `expiring_soon`; `certificate.expired`
      marks them `expired` and clears `insuranceComplianceAt`; neither writes a request. */
  lemma ExpiringExpiredEffect(t: Tables, certificateId: string, j: int)
    requires 0 <= j < |t.vendors|
    ensures var u := AfterMatching(t, certificateId, KeepRequest, Some(ExpiringPatch));
      u.requests == t.requests
      && (t.vendors[j].id in MatchedVendorIds(t.requests, certificateId) ==>
            u.vendors[j] == t.vendors[j].(insuranceStatus := "expiring_soon"))
    ensures var u := AfterMatching(t, certificateId, KeepRequest, Some(ExpiredPatch));
      u.requests == t.requests
      && (t.vendors[j].id in MatchedVendorIds(t.requests, certificateId) ==>
            u.vendors[j] == t.vendors[j].(insuranceStatus := "expired", insuranceComplianceAt := None))
  {
  }

  /** `compliance.gap`: matching requests become `non_compliant` with the payload's gaps
      (dropped when absent) and `lastChecked` over the stored result; their vendors become
      `non_compliant` with `insuranceComplianceAt` cleared. */
  lemma GapEffect(t: Tables, certificateId: string, gaps: Option<seq<PayloadGap>>, now: int, i: int, j: int)
    requires 0 <= i < |t.requests| && 0 <= j < |t.vendors|
    ensures var u := AfterMatching(t, certificateId, RecordGaps(gaps, now), Some(GapPatch));
      var r, q := t.requests[i], u.requests[i];
      (MatchesCertificate(r, certificateId) ==>
         q.status == "non_compliant"
         && q.complianceResult == Some(r.complianceResult.value.(gaps := gaps, lastChecked := Some(now))))
      && (!MatchesCertificate(r, certificateId) ==> q == r)
      && (t.vendors[j].id in MatchedVendorIds(t.requests, certificateId) ==>
            u.vendors[j] == t.vendors[j].(insuranceStatus := "non_compliant", insuranceComplianceAt := None))
  {
  }
}
