/**
 * The dashboard (`/`): the certificate counts of `getStats` and the small label
 * rules of its widgets.
 */
module Dashboard {
  import opened Common
  import opened Text
  import opened Dates
  import opened Records
  import opened Buckets

  /** The certificate members of the statistics `getStats` returns. */
  datatype CertificateStats = CertificateStats(
    totalCerts: nat,
    compliant: nat,
    expired: nat,
    expiring30: nat,
    expiring60: nat,
    expiring90: nat)

  /** The certificate counts over every stored certificate. */
  function GetStats(cs: seq<Certificate>, now: int): (s: CertificateStats)
    ensures s.totalCerts == |cs|
    ensures s.compliant <= s.totalCerts && s.expired <= s.totalCerts
  {
    CertificateStats(
      |cs|,
      CountWhere(cs, (c: Certificate) => c.complianceStatus == "compliant"),
      CountWhere(cs, c => Expired(c, now)),
      CountWhere(cs, c => ExpiringWithin(c, now, 30)),
      CountWhere(cs, c => ExpiringWithin(c, now, 60)),
      CountWhere(cs, c => ExpiringWithin(c, now, 90)))
  }

  /** The buckets are nested, and expired plus the 90-day bucket fit in the total. */
  lemma StatsNested(cs: seq<Certificate>, now: int)
    ensures var s := GetStats(cs, now);
      s.expiring30 <= s.expiring60 <= s.expiring90
      && s.expired + s.expiring90 <= s.totalCerts
  {
    CountNested(cs, now, 30, 60);
    CountNested(cs, now, 60, 90);
    CountExpiredApart(cs, now, 90);
  }

  /** A certificate without an expiration date adds one to the total and to no
      date bucket. */
  lemma UndatedInNoBucket(cs: seq<Certificate>, c: Certificate, now: int)
    requires c.expirationDate.None?
    ensures var s, t := GetStats(cs, now), GetStats(cs + [c], now);
      t.totalCerts == s.totalCerts + 1
      && t.expired == s.expired && t.expiring30 == s.expiring30
      && t.expiring60 == s.expiring60 && t.expiring90 == s.expiring90
  {
    assert (cs + [c])[..|cs + [c]| - 1] == cs;
  }

  /** A certificate counts as compliant exactly when its status is `compliant`:
      adding one changes the count by one or by nothing accordingly. */
  lemma CompliantCountsStatus(cs: seq<Certificate>, c: Certificate, now: int)
    ensures GetStats(cs + [c], now).compliant
         == GetStats(cs, now).compliant + (if c.complianceStatus == "compliant" then 1 else 0)
  {
    assert (cs + [c])[..|cs + [c]| - 1] == cs;
  }

  /** The subtitle of the non-compliant vendors widget. */
  function GapsSubtitle(n: nat): (s: string)
    ensures n == 0 <==> s == "All vendors are compliant"
  {
    if n == 0 then "All vendors are compliant"
    else NatToString(n) + " vendor" + (if n != 1 then "s" else "") + " with compliance gaps"
  }

  /** One vendor is written in the singular, any other positive count in the plural. */
  lemma SubtitlePlural(n: nat)
    requires n > 0
    ensures var s := GapsSubtitle(n);
      s == NatToString(n) + (if n == 1 then " vendor" else " vendors") + " with compliance gaps"
  {
  }

  /** The widget lists at most five vendors and links to the full list exactly when
      there are more than five. */
  predicate ShowsViewAll(insuranceNonCompliant: nat) {
    insuranceNonCompliant > 5
  }

  /** The chip of a recent certificate request. */
  function RequestChip(status: string): (s: string)
    ensures s == "Pending" <==> status == "pending"
    ensures s != "Pending" ==> s == "Fulfilled"
  {
    if status == "pending" then "Pending" else "Fulfilled"
  }
}
