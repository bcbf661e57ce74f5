/**
 * The older webhook receiver at `/api/webhooks`: it checks that the signature and
 * event headers are present (the signature itself is never verified) and then,
 * for the two certificate events, bulk-updates the certificates of the first
 * vendor whose Brokermatic insured id matches.
 *
 * A member of the JSON body is absent, `null`, or a value, and Prisma reads the
 * three differently in a `where`: it drops a member whose value is undefined, it
 * reads `null` as an IS NULL test, and it compares a value for equality.
 */
module LegacyWebhook {
  import opened Common
  import opened Records

  /** A member of the JSON body as JavaScript reads it. */
  datatype Member<T> = Absent | Null | Present(value: T)

  /** `body.data` of the certificate events. `insuredId` is `insured?.id`, so it is
      Absent when `insured` itself is absent or `null`. */
  datatype EventData = EventData(insuredId: Member<string>, coverageType: Member<string>,
                                 daysUntilExpiration: Option<int>)

  /** The request body: unparsable, the JSON literal `null`, or any other JSON value,
      with its `data` member (a number, string or array has none). */
  datatype Body = Unparsable | NullBody | Parsed(data: Member<EventData>)

  datatype Response = Response(status: int, received: bool, error: Option<string>)

  const MissingHeader: Response := Response(400, false, Some("Missing signature or event header"))
  const Received: Response := Response(200, true, None)
  /** An exception escapes the handler and the framework answers with a server error. */
  const Unhandled: Response := Response(500, false, None)

  /** The two events whose handler destructures `body.data` and writes certificates. */
  predicate IsCertificateEvent(event: string) {
    event == "certificate.expiring" || event == "certificate.expired"
  }

  /** The events whose handler reads `body.data`, which throws on a `null` body. */
  predicate ReadsBodyData(event: string) {
    IsCertificateEvent(event) || event == "compliance.gap_detected"
  }

  /** `prisma.vendor.findFirst({ where: { brokermaticInsuredId: insured?.id } })`. */
  predicate VendorMatches(v: Vendor, insuredId: Member<string>) {
    match insuredId
    case Absent => true
    case Null => v.brokermaticInsuredId.None?
    case Present(id) => v.brokermaticInsuredId == Some(id)
  }

  /** The first stored vendor the filter selects. */
  function FirstVendor(vs: seq<Vendor>, insuredId: Member<string>): (r: Option<nat>)
    ensures r.Some? ==> r.value < |vs| && VendorMatches(vs[r.value], insuredId)
    ensures r.Some? ==> forall k :: 0 <= k < r.value ==> !VendorMatches(vs[k], insuredId)
    ensures r.None? ==> forall k :: 0 <= k < |vs| ==> !VendorMatches(vs[k], insuredId)
  {
    if vs == [] then None
    else if VendorMatches(vs[0], insuredId) then Some(0)
    else
      var rest := FirstVendor(vs[1..], insuredId);
      assert forall k :: 1 <= k < |vs| ==> vs[k] == vs[1..][k - 1];
      match rest
      case None => None
      case Some(k) => Some(k + 1)
  }

  /** The `updateMany` filter `{ vendorId, coverageType }`. A `null` coverage type
      never selects a row: the column always holds a string, and Prisma refuses the
      filter before it writes anything. */
  predicate CertificateMatches(c: Certificate, vendorId: string, coverageType: Member<string>) {
    c.vendorId == vendorId
    && match coverageType
       case Absent => true
       case Null => false
       case Present(t) => c.coverageType == t
  }

  /** The `data` of the two `updateMany` calls. */
  datatype CertificateEdit = MarkExpiring(at: int) | MarkExpired

  function EditedCertificate(c: Certificate, e: CertificateEdit): (d: Certificate)
    ensures d.id == c.id && d.vendorId == c.vendorId && d.coverageType == c.coverageType
    ensures d.policyNumber == c.policyNumber && d.expirationDate == c.expirationDate
  {
    match e
    case MarkExpiring(t) => c.(notifiedDate := Some(t), complianceStatus := "expiring")
    case MarkExpired => c.(complianceStatus := "expired")
  }

  /** The certificate table after `updateMany`. */
  function UpdateMany(cs: seq<Certificate>, vendorId: string, coverageType: Member<string>, e: CertificateEdit)
    : (ds: seq<Certificate>)
    ensures SameOwners(cs, ds)
    ensures forall i :: 0 <= i < |cs| ==>
      ds[i] == if CertificateMatches(cs[i], vendorId, coverageType) then EditedCertificate(cs[i], e) else cs[i]
  {
    seq(|cs|, i requires 0 <= i < |cs| =>
      if CertificateMatches(cs[i], vendorId, coverageType) then EditedCertificate(cs[i], e) else cs[i])
  }

  /** `prisma.certificate.updateMany`, row by row. */
  method UpdateCertificates(db: Database, vendorId: string, coverageType: Member<string>, e: CertificateEdit)
    requires db.Valid()
    modifies db
    ensures db.Valid()
    ensures db.vendors == old(db.vendors) && db.requests == old(db.requests)
    ensures db.certificates == UpdateMany(old(db.certificates), vendorId, coverageType, e)
  {
    var cs := db.certificates;
    var i := 0;
    while i < |cs|
      invariant 0 <= i <= |cs|
      invariant db.vendors == old(db.vendors) && db.requests == old(db.requests) && |db.certificates| == |cs|
      invariant Linked(db.vendors, cs, db.requests)
      invariant forall j :: 0 <= j < i ==>
        db.certificates[j] == if CertificateMatches(cs[j], vendorId, coverageType) then EditedCertificate(cs[j], e) else cs[j]
      invariant forall j :: i <= j < |cs| ==> db.certificates[j] == cs[j]
    {
      if CertificateMatches(cs[i], vendorId, coverageType) {
        db.certificates := db.certificates[i := EditedCertificate(cs[i], e)];
      }
      i := i + 1;
    }
    LinkedAfterUpdate(db.vendors, cs, db.requests, db.vendors, db.certificates, db.requests);
  }

  /** The certificate tables after a certificate event with its data. */
  function AfterCertificateEvent(t: Tables, data: EventData, e: CertificateEdit): Tables {
    match FirstVendor(t.vendors, data.insuredId)
    case None => t
    case Some(k) => t.(certificates := UpdateMany(t.certificates, t.vendors[k].id, data.coverageType, e))
  }

  /** The edit of a certificate event. */
  function EditFor(event: string, now: int): CertificateEdit {
    if event == "certificate.expiring" then MarkExpiring(now) else MarkExpired
  }

  /** The response and the tables after `POST`. */
  function Outcome(t: Tables, signature: Option<string>, event: Option<string>, body: Body, now: int): (Response, Tables) {
    if !Truthy(signature) || !Truthy(event) then (MissingHeader, t)
    else
      match body
      case Unparsable => (Unhandled, t)
      case NullBody => (if ReadsBodyData(event.value) then Unhandled else Received, t)
      case Parsed(data) =>
        if !IsCertificateEvent(event.value) then (Received, t)
        else if !data.Present? then (Unhandled, t)
        else if data.value.coverageType.Null? && FirstVendor(t.vendors, data.value.insuredId).Some? then (Unhandled, t)
        else (Received, AfterCertificateEvent(t, data.value, EditFor(event.value, now)))
  }

  /** `POST /api/webhooks`. */
  method Post(db: Database, signature: Option<string>, event: Option<string>, body: Body, now: int)
    returns (response: Response)
    requires db.Valid()
    modifies db
    ensures db.Valid()
    ensures (response, Tables(db.vendors, db.certificates, db.requests))
            == Outcome(Tables(old(db.vendors), old(db.certificates), old(db.requests)), signature, event, body, now)
  {
    if !Truthy(signature) || !Truthy(event) {
      return MissingHeader;
    }
    if body.Unparsable? {
      return Unhandled;
    }
    if body.NullBody? {
      // reading `body.data` of `null` throws
      if ReadsBodyData(event.value) {
        return Unhandled;
      }
      return Received;
    }
    if IsCertificateEvent(event.value) {
      if !body.data.Present? {
        // destructuring an undefined or `null` `data` throws
        return Unhandled;
      }
      var data := body.data.value;
      var vendor := FirstVendor(db.vendors, data.insuredId);
      if vendor.Some? {
        if data.coverageType.Null? {
          // Prisma rejects a `null` filter on the required column
          return Unhandled;
        }
        UpdateCertificates(db, db.vendors[vendor.value].id, data.coverageType, EditFor(event.value, now));
      }
    }
    response := Received;
  }

  // ---------------------------------------------------------------- what an event does

  /** A missing or empty header is answered 400 and nothing is written. Otherwise the
      signature is never checked: the answer is `received: true` or a server error, and
      a parsed body is `received` unless a certificate event lacks `data` or brings a
      `null` coverage type for a matching vendor. */
  lemma HeadersGate(t: Tables, signature: Option<string>, event: Option<string>, body: Body, now: int)
    ensures !Truthy(signature) || !Truthy(event) ==> Outcome(t, signature, event, body, now) == (MissingHeader, t)
    ensures Truthy(signature) && Truthy(event) ==>
      Outcome(t, signature, event, body, now).0 in {Received, Unhandled}
    ensures Truthy(signature) && Truthy(event) && body.Parsed?
            && (!IsCertificateEvent(event.value) || (body.data.Present? && !body.data.value.coverageType.Null?)) ==>
      Outcome(t, signature, event, body, now).0 == Received
  {
  }

  /** The server errors, exactly: an unparsable body; a `null` body for an event whose
      handler reads `body.data`; a certificate event whose `data` is absent or `null`;
      and a certificate event whose `null` coverage type reaches `updateMany`. None of
      them writes anything. */
  lemma ServerErrorExactly(t: Tables, signature: string, event: string, body: Body, now: int)
    requires signature != "" && event != ""
    ensures var (r, u) := Outcome(t, Some(signature), Some(event), body, now);
      (r == Unhandled <==>
         body.Unparsable?
         || (body.NullBody? && ReadsBodyData(event))
         || (body.Parsed? && IsCertificateEvent(event)
             && (!body.data.Present?
                 || (body.data.value.coverageType.Null? && FirstVendor(t.vendors, body.data.value.insuredId).Some?))))
      && (r == Unhandled ==> u == t)
  {
  }

  /** A `null` body throws exactly for the three events whose handler reads
      `body.data`; an unknown event never reads the body and is `received`. */
  lemma NullBodyAnswers(t: Tables, signature: string, event: string, now: int)
    requires signature != "" && event != ""
    ensures Outcome(t, Some(signature), Some(event), NullBody, now).1 == t
    ensures Outcome(t, Some(signature), Some(event), NullBody, now).0 == Unhandled <==>
      event in {"certificate.expiring", "certificate.expired", "compliance.gap_detected"}
    ensures !(event in {"certificate.expiring", "certificate.expired", "compliance.gap_detected"}) ==>
      Outcome(t, Some(signature), Some(event), NullBody, now).0 == Received
  {
  }

  /** `compliance.gap_detected` and every unknown event write nothing, and answer
      `received` for every body that parses to something other than `null`. */
  lemma OtherEventsChangeNothing(t: Tables, signature: string, event: string, body: Body, now: int)
    requires signature != "" && event != ""
    requires event != "certificate.expiring" && event != "certificate.expired"
    ensures Outcome(t, Some(signature), Some(event), body, now).1 == t
    ensures body.Parsed? ==> Outcome(t, Some(signature), Some(event), body, now) == (Received, t)
  {
  }

  /** The certificate events touch only certificates, and only those of the first vendor
      that matches the insured id and have the given coverage type: `expiring` stamps
      `notifiedDate` and sets `expiring`, `expired` sets `expired` and keeps `notifiedDate`. */
  lemma CertificateEventEffect(t: Tables, data: EventData, now: int, k: nat, i: int)
    requires FirstVendor(t.vendors, data.insuredId) == Some(k) && 0 <= i < |t.certificates|
    ensures var u, c := AfterCertificateEvent(t, data, MarkExpiring(now)), t.certificates[i];
      u.vendors == t.vendors && u.requests == t.requests
      && (CertificateMatches(c, t.vendors[k].id, data.coverageType) ==>
            u.certificates[i] == c.(notifiedDate := Some(now), complianceStatus := "expiring"))
      && (!CertificateMatches(c, t.vendors[k].id, data.coverageType) ==> u.certificates[i] == c)
    ensures var u, c := AfterCertificateEvent(t, data, MarkExpired), t.certificates[i];
      u.vendors == t.vendors && u.requests == t.requests
      && (CertificateMatches(c, t.vendors[k].id, data.coverageType) ==>
            u.certificates[i] == c.(complianceStatus := "expired")
            && u.certificates[i].notifiedDate == c.notifiedDate)
      && (!CertificateMatches(c, t.vendors[k].id, data.coverageType) ==> u.certificates[i] == c)
  {
  }

  /** Only the first matching vendor counts: certificates of a later vendor with the same
      insured id are never touched. */
  lemma OnlyFirstVendor(t: Tables, data: EventData, e: CertificateEdit, k: nat, m: int, i: int)
    requires FirstVendor(t.vendors, data.insuredId) == Some(k)
    requires 0 <= m < |t.vendors| && t.vendors[m].id != t.vendors[k].id
    requires 0 <= i < |t.certificates| && t.certificates[i].vendorId == t.vendors[m].id
    ensures AfterCertificateEvent(t, data, e).certificates[i] == t.certificates[i]
  {
  }

  /** With no vendor matching the insured id nothing changes. */
  lemma NoVendorNoChange(t: Tables, data: EventData, e: CertificateEdit)
    requires forall k :: 0 <= k < |t.vendors| ==> !VendorMatches(t.vendors[k], data.insuredId)
    ensures AfterCertificateEvent(t, data, e) == t
  {
  }

  /** Without an insured id the filter is dropped: the first stored vendor is the one updated. */
  lemma MissingInsuredIdPicksFirstVendor(t: Tables, data: EventData)
    requires t.vendors != [] && data.insuredId.Absent?
    ensures FirstVendor(t.vendors, data.insuredId) == Some(0)
  {
  }

  /** A `null` insured id is an IS NULL test: it selects exactly the first stored vendor
      that has no insured id, not the first vendor. */
  lemma NullInsuredIdPicksFirstUnlinked(vs: seq<Vendor>, k: int)
    ensures FirstVendor(vs, Null) == Some(k) <==>
      0 <= k < |vs| && vs[k].brokermaticInsuredId.None?
      && forall j :: 0 <= j < k ==> vs[j].brokermaticInsuredId.Some?
    ensures FirstVendor(vs, Null).None? <==> forall j :: 0 <= j < |vs| ==> vs[j].brokermaticInsuredId.Some?
  {
  }

  /** A `null` coverage type with a matching vendor is refused before `updateMany`
      writes: a server error and no change. With no matching vendor it is never used. */
  lemma NullCoverageTypeRejected(t: Tables, signature: string, event: string, data: EventData, now: int)
    requires signature != "" && IsCertificateEvent(event) && data.coverageType.Null?
    ensures var some := FirstVendor(t.vendors, data.insuredId).Some?;
      Outcome(t, Some(signature), Some(event), Parsed(Present(data)), now)
      == (if some then Unhandled else Received, t)
  {
  }
}
