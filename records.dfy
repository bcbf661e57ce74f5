/**
 * The stored records the notification passes and the webhook handlers read and
 * update: vendors, certificates and certificate requests, held by an in-memory
 * `Database` whose sequences the operations reassign in place.
 */
module Records {
  import opened Common
  import opened SmartCoiClient

  datatype Vendor = Vendor(
    id: string,
    name: string,
    insuranceStatus: string,
    insuranceComplianceAt: Option<int>,
    updatedAt: int,
    brokermaticInsuredId: Option<string>,
    brokerName: Option<string>,
    brokerEmail: Option<string>)

  datatype Certificate = Certificate(
    id: string,
    vendorId: string,
    coverageType: string,
    policyNumber: Option<string>,
    expirationDate: Option<int>,
    complianceStatus: string,
    notifiedDate: Option<int>)

  /** One entry of a coverage's `limitsGaps` in a stored compliance result. */
  datatype LimitGap = LimitGap(limitName: string, required: int, actual: int)

  /** One entry of `coverageResults` in a stored compliance result. */
  datatype CoverageResult = CoverageResult(
    coverageType: string,
    found: bool,
    limitsPass: bool,
    limitsGaps: Option<seq<LimitGap>>)

  /** The JSON object stored in `complianceResult`; every member may be absent. */
  datatype ComplianceResult = ComplianceResult(
    overallStatus: Option<string>,
    certificate: Option<BmCertificate>,
    coverageResults: Option<seq<CoverageResult>>,
    gaps: Option<seq<PayloadGap>>,
    lastUpdated: Option<int>,
    lastChecked: Option<int>)

  datatype CertificateRequest = CertificateRequest(
    id: string,
    vendorId: string,
    brokermaticRequestId: Option<string>,
    status: string,
    createdAt: int,
    uploadedAt: Option<int>,
    validatedAt: Option<int>,
    complianceResult: Option<ComplianceResult>)

  /** Some stored vendor has this id. */
  predicate HasVendor(vs: seq<Vendor>, id: string) {
    exists j :: 0 <= j < |vs| && vs[j].id == id
  }

  /** Two vendor tables hold the same ids in the same places. */
  predicate SameIds(vs: seq<Vendor>, ws: seq<Vendor>) {
    |vs| == |ws| && forall j :: 0 <= j < |vs| ==> vs[j].id == ws[j].id
  }

  /** Every certificate belongs to a stored vendor. */
  predicate CertsLinked(vs: seq<Vendor>, cs: seq<Certificate>) {
    forall i :: 0 <= i < |cs| ==> HasVendor(vs, cs[i].vendorId)
  }

  /** Every certificate request belongs to a stored vendor. */
  predicate RequestsLinked(vs: seq<Vendor>, rs: seq<CertificateRequest>) {
    forall i :: 0 <= i < |rs| ==> HasVendor(vs, rs[i].vendorId)
  }

  /** Every certificate and every request belongs to a stored vendor. */
  predicate Linked(vs: seq<Vendor>, cs: seq<Certificate>, rs: seq<CertificateRequest>) {
    CertsLinked(vs, cs) && RequestsLinked(vs, rs)
  }

  /** Two certificate tables hold certificates of the same vendors in the same places. */
  predicate SameOwners(cs: seq<Certificate>, ds: seq<Certificate>) {
    |cs| == |ds| && forall i :: 0 <= i < |cs| ==> cs[i].vendorId == ds[i].vendorId
  }

  /** Two request tables hold requests of the same vendors in the same places. */
  predicate SameRequesters(rs: seq<CertificateRequest>, qs: seq<CertificateRequest>) {
    |rs| == |qs| && forall i :: 0 <= i < |rs| ==> rs[i].vendorId == qs[i].vendorId
  }

  /** The vendor with the given id (`include: { vendor: true }`, `findUnique`). */
  function FindVendor(vs: seq<Vendor>, id: string): (r: Option<Vendor>)
    ensures r.Some? <==> HasVendor(vs, id)
    ensures r.Some? ==> r.value.id == id && r.value in vs
  {
    if vs == [] then None
    else if vs[0].id == id then Some(vs[0])
    else
      var r := FindVendor(vs[1..], id);
      assert HasVendor(vs, id) ==> vs[0].id == id || HasVendor(vs[1..], id) by {
        if HasVendor(vs, id) {
          var j :| 0 <= j < |vs| && vs[j].id == id;
          if j > 0 { assert vs[1..][j - 1].id == id; }
        }
      }
      r
  }

  /** Updates that keep every vendor id and every owner keep every link intact. */
  lemma LinkedAfterUpdate(vs: seq<Vendor>, cs: seq<Certificate>, rs: seq<CertificateRequest>,
                          ws: seq<Vendor>, ds: seq<Certificate>, qs: seq<CertificateRequest>)
    requires Linked(vs, cs, rs) && SameIds(vs, ws) && SameOwners(cs, ds) && SameRequesters(rs, qs)
    ensures Linked(ws, ds, qs)
  {
    forall i | 0 <= i < |ds| ensures HasVendor(ws, ds[i].vendorId) {
      var j :| 0 <= j < |vs| && vs[j].id == cs[i].vendorId;
      assert ws[j].id == ds[i].vendorId;
    }
    forall i | 0 <= i < |qs| ensures HasVendor(ws, qs[i].vendorId) {
      var j :| 0 <= j < |vs| && vs[j].id == rs[i].vendorId;
      assert ws[j].id == qs[i].vendorId;
    }
  }

  /** The `data` of a `prisma.vendor.update`: each member that is present overwrites its field. */
  datatype VendorPatch = VendorPatch(status: Option<string>, complianceAt: Option<Option<int>>)

  function Patched(v: Vendor, p: VendorPatch): (w: Vendor)
    ensures w.id == v.id && w.name == v.name && w.updatedAt == v.updatedAt
    ensures w.brokermaticInsuredId == v.brokermaticInsuredId
    ensures w.brokerName == v.brokerName && w.brokerEmail == v.brokerEmail
    ensures w.insuranceStatus == p.status.GetOr(v.insuranceStatus)
    ensures w.insuranceComplianceAt == p.complianceAt.GetOr(v.insuranceComplianceAt)
  {
    v.(insuranceStatus := p.status.GetOr(v.insuranceStatus),
       insuranceComplianceAt := p.complianceAt.GetOr(v.insuranceComplianceAt))
  }

  /** `prisma.vendor.update({ where: { id }, data })` on the vendor table. */
  function UpdateVendor(vs: seq<Vendor>, id: string, p: VendorPatch): (ws: seq<Vendor>)
    ensures SameIds(vs, ws)
    ensures forall j :: 0 <= j < |vs| ==> ws[j] == if vs[j].id == id then Patched(vs[j], p) else vs[j]
  {
    seq(|vs|, j requires 0 <= j < |vs| => if vs[j].id == id then Patched(vs[j], p) else vs[j])
  }

  /** Every vendor whose id is in `ids` patched alike: one `prisma.vendor.update` per id. */
  function PatchVendors(vs: seq<Vendor>, ids: set<string>, p: VendorPatch): (ws: seq<Vendor>)
    ensures SameIds(vs, ws)
    ensures forall j :: 0 <= j < |vs| ==> ws[j] == if vs[j].id in ids then Patched(vs[j], p) else vs[j]
  {
    seq(|vs|, j requires 0 <= j < |vs| => if vs[j].id in ids then Patched(vs[j], p) else vs[j])
  }

  /** A patch only overwrites, so applying it twice is applying it once. */
  lemma PatchedTwice(v: Vendor, p: VendorPatch)
    ensures Patched(Patched(v, p), p) == Patched(v, p)
  {
  }

  /** Patching one more vendor alike is one more update. */
  lemma PatchOneMore(vs: seq<Vendor>, ids: set<string>, id: string, p: VendorPatch)
    ensures UpdateVendor(PatchVendors(vs, ids, p), id, p) == PatchVendors(vs, ids + {id}, p)
  {
    forall j | 0 <= j < |vs| && vs[j].id in ids && vs[j].id == id {
      PatchedTwice(vs[j], p);
    }
  }

  /** The three tables as one value, for stating what an event does to them. */
  datatype Tables = Tables(vendors: seq<Vendor>, certificates: seq<Certificate>, requests: seq<CertificateRequest>)

  predicate TablesLinked(t: Tables) {
    Linked(t.vendors, t.certificates, t.requests)
  }

  /** The three tables, updated in place by the passes and the webhook handlers. */
  class Database {
    var vendors: seq<Vendor>
    var certificates: seq<Certificate>
    var requests: seq<CertificateRequest>

    /** Referential integrity: every certificate and request has its vendor. */
    predicate Valid()
      reads this
    {
      Linked(vendors, certificates, requests)
    }

    constructor(vs: seq<Vendor>, cs: seq<Certificate>, rs: seq<CertificateRequest>)
      requires Linked(vs, cs, rs)
      ensures Valid()
      ensures vendors == vs && certificates == cs && requests == rs
    {
      vendors := vs;
      certificates := cs;
      requests := rs;
    }
  }
}
