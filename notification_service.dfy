/**
 * The notification scheduler: four passes over the stored records, each of
 * which selects the records to alert on, e-mails the notification recipients
 * and, for the first two, records the alert in place.  The mailer is an oracle
 * `send` that accepts or rejects each e-mail; the clock is `now`, in milliseconds.
 *
 * Each pass is specified pointwise: a predicate says whether a record is e-mailed
 * successfully, a function gives the record after the pass, and a function built
 * from the end of the table gives the list of messages, so that the loop of each
 * method keeps "the first i records are done" as its invariant.
 */
module NotificationService {
  import opened Common
  import opened Text
  import opened Dates
  import opened Records
  import opened Templates

  const DefaultAppUrl: string := "http://localhost:3000"
  const DefaultRecipients: seq<string> := ["insurance@columbia.edu", "riskmanagement@columbia.edu"]
  const GenericGap: string := "Certificate does not meet Columbia University requirements"

  /** The environment and the locale formatting the passes depend on:
      `NOTIFICATION_RECIPIENTS`, `NEXT_PUBLIC_APP_URL`,
      `toLocaleDateString('en-US', { year, month: 'long', day })` and `toLocaleString()`. */
  datatype Settings = Settings(
    recipientsVariable: Option<string>,
    appUrl: Option<string>,
    formatDate: int -> string,
    formatNumber: int -> string)

  /** `BASE_URL`: an unset or empty variable falls back to the local address. */
  function BaseUrl(st: Settings): (u: string)
    ensures Truthy(st.appUrl) ==> u == st.appUrl.value
    ensures !Truthy(st.appUrl) ==> u == DefaultAppUrl
  {
    OrElse(st.appUrl, DefaultAppUrl)
  }

  // ---------------------------------------------------------------- recipients

  /** `getNotificationRecipients`: the two defaults when the variable is unset,
      otherwise its comma-separated pieces, each trimmed, in order. */
  function Recipients(variable: Option<string>): (r: seq<string>)
    ensures r != []
    ensures variable.None? ==> r == DefaultRecipients
    ensures variable.Some? ==>
      |r| == |Split(variable.value, ',')|
      && forall i :: 0 <= i < |r| ==> r[i] == Trim(Split(variable.value, ',')[i])
  {
    match variable
    case None => DefaultRecipients
    case Some(v) =>
      var parts := Split(v, ',');
      seq(|parts|, i requires 0 <= i < |parts| => Trim(parts[i]))
  }

  /** A set variable yields one address more than it has commas. */
  lemma RecipientsCount(v: string)
    ensures |Recipients(Some(v))| == Count(v, ',') + 1
  {
    SplitCount(v, ',');
  }

  /** A set but empty variable is not replaced by the defaults: it yields one empty address. */
  lemma RecipientsOfEmptyVariable()
    ensures Recipients(Some("")) == [""]
  {
    assert Split("", ',') == [""];
  }

  /** A variable whose comma-separated pieces are already trimmed is read as those pieces. */
  lemma RecipientsOfTrimmedPieces(v: string, parts: seq<string>)
    requires Split(v, ',') == parts
    requires forall k :: 0 <= k < |parts| ==> Trimmed(parts[k])
    ensures Recipients(Some(v)) == parts
  {
    var r := Recipients(Some(v));
    forall k | 0 <= k < |parts| ensures r[k] == parts[k] {
      TrimOfTrimmed(parts[k]);
    }
  }

  /** Any non-empty list of trimmed addresses without commas, written comma-separated
      into the variable, is read back unchanged. */
  lemma RecipientsRoundTrip(addresses: seq<string>, variable: string)
    requires addresses != []
    requires forall k :: 0 <= k < |addresses| ==> Trimmed(addresses[k]) && ',' !in addresses[k]
    requires variable == Join(addresses, ",")
    ensures Recipients(Some(variable)) == addresses
  {
    JoinSplit(addresses, ',');
    RecipientsOfTrimmedPieces(variable, addresses);
  }

  // ---------------------------------------------------------------- e-mails

  /** The template and the data an e-mail's HTML is rendered from. */
  datatype Body =
    | ExpiringBody(expiring: ExpirationData)
    | ExpiredBody(expired: ExpiredData)
    | NonCompliantBody(nonCompliant: NonCompliantData)
    | PendingBody(pending: PendingRequestData)

  /** The `html` member of the e-mail. */
  function Html(b: Body): string {
    match b
    case ExpiringBody(d) => CertificateExpiringTemplate(d)
    case ExpiredBody(d) => CertificateExpiredTemplate(d)
    case NonCompliantBody(d) => NonCompliantNotificationTemplate(d)
    case PendingBody(d) => PendingRequestReminderTemplate(d)
  }

  datatype Email = Email(to: seq<string>, subject: string, body: Body)

  function VendorPage(st: Settings, v: Vendor): string {
    BaseUrl(st) + "/vendors/" + v.id + "/insurance"
  }

  // ---------------------------------------------------------------- expiring pass

  /** The `findMany` filter of `checkExpiringCertificates`: expiring within 90 days
      and not notified in the last 7 days. */
  predicate ExpiringCandidate(c: Certificate, now: int) {
    c.expirationDate.Some? && now <= c.expirationDate.value <= now + 90 * DayMs
    && (c.notifiedDate.None? || c.notifiedDate.value < now - 7 * DayMs)
  }

  /** `shouldNotify`: at 90 and 60 days, and daily from 30 days on. */
  predicate ShouldNotifyExpiring(days: int) {
    days == 90 || days == 60 || days == 30 || days <= 30
  }

  function ExpiringEmail(st: Settings, v: Vendor, c: Certificate, now: int): Email
    requires c.expirationDate.Some?
  {
    var exp := c.expirationDate.value;
    Email(Recipients(st.recipientsVariable),
          "Certificate Expiring Soon: " + v.name + " - " + c.coverageType,
          ExpiringBody(ExpirationData(v.name, c.coverageType, OrElse(c.policyNumber, "N/A"),
                                      st.formatDate(exp), DaysBetween(now, exp),
                                      BaseUrl(st) + "/certificates/" + c.id)))
  }

  /** The expiring pass e-mails `c` and the mailer accepts the e-mail. */
  predicate ExpiringSent(st: Settings, send: Email -> bool, vs: seq<Vendor>, c: Certificate, now: int)
    requires HasVendor(vs, c.vendorId)
  {
    ExpiringCandidate(c, now)
    && ShouldNotifyExpiring(DaysBetween(now, c.expirationDate.value))
    && send(ExpiringEmail(st, FindVendor(vs, c.vendorId).value, c, now))
  }

  /** A certificate after the expiring pass. */
  function AfterExpiring(st: Settings, send: Email -> bool, vs: seq<Vendor>, c: Certificate, now: int): Certificate
    requires HasVendor(vs, c.vendorId)
  {
    if ExpiringSent(st, send, vs, c, now) then c.(notifiedDate := Some(now)) else c
  }

  /** The certificate table after the expiring pass. */
  function ExpiringPass(st: Settings, send: Email -> bool, vs: seq<Vendor>, cs: seq<Certificate>, now: int): (ds: seq<Certificate>)
    requires CertsLinked(vs, cs)
    ensures SameOwners(cs, ds)
  {
    seq(|cs|, i requires 0 <= i < |cs| => AfterExpiring(st, send, vs, cs[i], now))
  }

  /** The message the expiring pass records for `c`, if any. */
  function ExpiringNotice(st: Settings, send: Email -> bool, vs: seq<Vendor>, c: Certificate, now: int): seq<string>
    requires HasVendor(vs, c.vendorId)
  {
    if ExpiringSent(st, send, vs, c, now)
    then ["Sent expiration notice for " + FindVendor(vs, c.vendorId).value.name + " - " + c.coverageType]
    else []
  }

  /** The `notifications` list of the expiring pass over the certificates `cs`. */
  function ExpiringNotices(st: Settings, send: Email -> bool, vs: seq<Vendor>, cs: seq<Certificate>, now: int): seq<string>
    requires CertsLinked(vs, cs)
    decreases |cs|
  {
    if cs == [] then []
    else ExpiringNotices(st, send, vs, cs[..|cs| - 1], now) + ExpiringNotice(st, send, vs, cs[|cs| - 1], now)
  }

  /** The certificate table part-way through the expiring pass: the first `i` done. */
  function ExpiringUpTo(st: Settings, send: Email -> bool, vs: seq<Vendor>, cs: seq<Certificate>, now: int, i: int): (ds: seq<Certificate>)
    requires CertsLinked(vs, cs) && 0 <= i <= |cs|
    ensures |ds| == |cs|
  {
    seq(|cs|, j requires 0 <= j < |cs| => if j < i then AfterExpiring(st, send, vs, cs[j], now) else cs[j])
  }

  lemma ExpiringUpToEnds(st: Settings, send: Email -> bool, vs: seq<Vendor>, cs: seq<Certificate>, now: int)
    requires CertsLinked(vs, cs)
    ensures ExpiringUpTo(st, send, vs, cs, now, 0) == cs
    ensures ExpiringUpTo(st, send, vs, cs, now, |cs|) == ExpiringPass(st, send, vs, cs, now)
  {
  }

  /** Processing one more certificate of the expiring pass. */
  lemma ExpiringStep(st: Settings, send: Email -> bool, vs: seq<Vendor>, cs: seq<Certificate>, now: int, i: int)
    requires CertsLinked(vs, cs) && 0 <= i < |cs|
    ensures CertsLinked(vs, cs[..i]) && CertsLinked(vs, cs[..i + 1])
    ensures ExpiringUpTo(st, send, vs, cs, now, i + 1)
            == ExpiringUpTo(st, send, vs, cs, now, i)[i := AfterExpiring(st, send, vs, cs[i], now)]
    ensures ExpiringNotices(st, send, vs, cs[..i + 1], now)
            == ExpiringNotices(st, send, vs, cs[..i], now) + ExpiringNotice(st, send, vs, cs[i], now)
  {
    assert cs[..i + 1][..i] == cs[..i];
    assert cs[..i + 1][i] == cs[i];
  }

  /** One iteration of `checkExpiringCertificates`: certificate `cs[i]` is e-mailed about
      when it is 90, 60, 30 or fewer days from expiry, and stamped when the mailer accepts. */
  method NotifyExpiring(db: Database, st: Settings, send: Email -> bool, vs: seq<Vendor>,
                        cs: seq<Certificate>, now: int, i: int, notifications: seq<string>)
    returns (next: seq<string>)
    requires CertsLinked(vs, cs) && 0 <= i < |cs|
    requires db.certificates == ExpiringUpTo(st, send, vs, cs, now, i)
    requires CertsLinked(vs, cs[..i]) && notifications == ExpiringNotices(st, send, vs, cs[..i], now)
    modifies db
    ensures db.vendors == old(db.vendors) && db.requests == old(db.requests)
    ensures db.certificates == ExpiringUpTo(st, send, vs, cs, now, i + 1)
    ensures CertsLinked(vs, cs[..i + 1]) && next == ExpiringNotices(st, send, vs, cs[..i + 1], now)
  {
    ExpiringStep(st, send, vs, cs, now, i);
    next := notifications;
    var cert := cs[i];
    if ExpiringCandidate(cert, now) {
      var daysUntilExpiration := CeilDiv(cert.expirationDate.value - now, DayMs);
      var shouldNotify := daysUntilExpiration == 90 || daysUntilExpiration == 60
                          || daysUntilExpiration == 30 || daysUntilExpiration <= 30;
      if shouldNotify {
        var vendor := FindVendor(vs, cert.vendorId).value;
        var success := send(ExpiringEmail(st, vendor, cert, now));
        if success {
          db.certificates := db.certificates[i := cert.(notifiedDate := Some(now))];
          next := next + ["Sent expiration notice for " + vendor.name + " - " + cert.coverageType];
        }
      }
    }
  }

  /** `checkExpiringCertificates`. */
  method CheckExpiringCertificates(db: Database, st: Settings, send: Email -> bool, now: int)
    returns (notifications: seq<string>)
    requires db.Valid()
    modifies db
    ensures db.Valid()
    ensures db.vendors == old(db.vendors) && db.requests == old(db.requests)
    ensures db.certificates == ExpiringPass(st, send, db.vendors, old(db.certificates), now)
    ensures notifications == ExpiringNotices(st, send, db.vendors, old(db.certificates), now)
  {
    var cs := db.certificates;
    var vs := db.vendors;
    ExpiringUpToEnds(st, send, vs, cs, now);
    assert cs[..0] == [];
    notifications := [];
    var i := 0;
    while i < |cs|
      invariant 0 <= i <= |cs|
      invariant db.vendors == vs && db.requests == old(db.requests) && CertsLinked(vs, cs)
      invariant db.certificates == ExpiringUpTo(st, send, vs, cs, now, i)
      invariant CertsLinked(vs, cs[..i]) && notifications == ExpiringNotices(st, send, vs, cs[..i], now)
    {
      notifications := NotifyExpiring(db, st, send, vs, cs, now, i, notifications);
      i := i + 1;
    }
    assert cs[..|cs|] == cs;
    LinkedAfterUpdate(vs, cs, db.requests, vs, db.certificates, db.requests);
  }

  // ---------------------------------------------------------------- expired pass

  /** The `findMany` filter of `checkExpiredCertificates`: expired within the last
      day and not yet marked expired. */
  predicate ExpiredCandidate(c: Certificate, now: int) {
    c.expirationDate.Some? && now - DayMs <= c.expirationDate.value < now
    && c.complianceStatus != "expired"
  }

  function ExpiredEmail(st: Settings, v: Vendor, c: Certificate, now: int): Email
    requires c.expirationDate.Some?
  {
    var exp := c.expirationDate.value;
    Email(Recipients(st.recipientsVariable),
          "URGENT: Certificate Expired - " + v.name,
          ExpiredBody(ExpiredData(v.name, c.coverageType, OrElse(c.policyNumber, "N/A"),
                                  st.formatDate(exp), DaysBetween(exp, now), VendorPage(st, v))))
  }

  /** The expired pass e-mails `c` and the mailer accepts the e-mail. */
  predicate ExpiredSent(st: Settings, send: Email -> bool, vs: seq<Vendor>, c: Certificate, now: int)
    requires HasVendor(vs, c.vendorId)
  {
    ExpiredCandidate(c, now) && send(ExpiredEmail(st, FindVendor(vs, c.vendorId).value, c, now))
  }

  /** A certificate after the expired pass. */
  function AfterExpired(st: Settings, send: Email -> bool, vs: seq<Vendor>, c: Certificate, now: int): Certificate
    requires HasVendor(vs, c.vendorId)
  {
    if ExpiredSent(st, send, vs, c, now) then c.(complianceStatus := "expired", notifiedDate := Some(now)) else c
  }

  /** The certificate table after the expired pass. */
  function ExpiredPass(st: Settings, send: Email -> bool, vs: seq<Vendor>, cs: seq<Certificate>, now: int): (ds: seq<Certificate>)
    requires CertsLinked(vs, cs)
    ensures SameOwners(cs, ds)
  {
    seq(|cs|, i requires 0 <= i < |cs| => AfterExpired(st, send, vs, cs[i], now))
  }

  /** The ids of the vendors the expired pass marks expired. */
  function ExpiredVendorIds(st: Settings, send: Email -> bool, vs: seq<Vendor>, cs: seq<Certificate>, now: int): set<string>
    requires CertsLinked(vs, cs)
    decreases |cs|
  {
    if cs == [] then {}
    else
      var c := cs[|cs| - 1];
      ExpiredVendorIds(st, send, vs, cs[..|cs| - 1], now)
      + (if ExpiredSent(st, send, vs, c, now) then {c.vendorId} else {})
  }

  const MarkExpired: VendorPatch := VendorPatch(Some("expired"), None)

  /** The vendor table after the expired pass. */
  function ExpiredVendors(st: Settings, send: Email -> bool, vs: seq<Vendor>, cs: seq<Certificate>, now: int): (ws: seq<Vendor>)
    requires CertsLinked(vs, cs)
    ensures SameIds(vs, ws)
  {
    PatchVendors(vs, ExpiredVendorIds(st, send, vs, cs, now), MarkExpired)
  }

  function ExpiredNotice(st: Settings, send: Email -> bool, vs: seq<Vendor>, c: Certificate, now: int): seq<string>
    requires HasVendor(vs, c.vendorId)
  {
    if ExpiredSent(st, send, vs, c, now)
    then ["Sent expiration alert for " + FindVendor(vs, c.vendorId).value.name + " - " + c.coverageType]
    else []
  }

  /** The `notifications` list of the expired pass over the certificates `cs`. */
  function ExpiredNotices(st: Settings, send: Email -> bool, vs: seq<Vendor>, cs: seq<Certificate>, now: int): seq<string>
    requires CertsLinked(vs, cs)
    decreases |cs|
  {
    if cs == [] then []
    else ExpiredNotices(st, send, vs, cs[..|cs| - 1], now) + ExpiredNotice(st, send, vs, cs[|cs| - 1], now)
  }

  /** Processing one more certificate of the expired pass. */
  lemma ExpiredStep(st: Settings, send: Email -> bool, vs: seq<Vendor>, cs: seq<Certificate>, now: int, i: int)
    requires CertsLinked(vs, cs) && 0 <= i < |cs|
    ensures CertsLinked(vs, cs[..i]) && CertsLinked(vs, cs[..i + 1])
    ensures ExpiredVendorIds(st, send, vs, cs[..i + 1], now)
            == ExpiredVendorIds(st, send, vs, cs[..i], now)
               + (if ExpiredSent(st, send, vs, cs[i], now) then {cs[i].vendorId} else {})
    ensures ExpiredNotices(st, send, vs, cs[..i + 1], now)
            == ExpiredNotices(st, send, vs, cs[..i], now) + ExpiredNotice(st, send, vs, cs[i], now)
  {
    assert cs[..i + 1][..i] == cs[..i];
    assert cs[..i + 1][i] == cs[i];
  }

  /** The vendor table of the expired pass after one more certificate. */
  lemma ExpiredVendorsStep(st: Settings, send: Email -> bool, vs: seq<Vendor>, cs: seq<Certificate>, now: int, i: int)
    requires CertsLinked(vs, cs) && 0 <= i < |cs|
    ensures CertsLinked(vs, cs[..i]) && CertsLinked(vs, cs[..i + 1])
    ensures ExpiredSent(st, send, vs, cs[i], now) ==>
      PatchVendors(vs, ExpiredVendorIds(st, send, vs, cs[..i + 1], now), MarkExpired)
      == UpdateVendor(PatchVendors(vs, ExpiredVendorIds(st, send, vs, cs[..i], now), MarkExpired), cs[i].vendorId, MarkExpired)
    ensures !ExpiredSent(st, send, vs, cs[i], now) ==>
      PatchVendors(vs, ExpiredVendorIds(st, send, vs, cs[..i + 1], now), MarkExpired)
      == PatchVendors(vs, ExpiredVendorIds(st, send, vs, cs[..i], now), MarkExpired)
  {
    ExpiredStep(st, send, vs, cs, now, i);
    PatchOneMore(vs, ExpiredVendorIds(st, send, vs, cs[..i], now), cs[i].vendorId, MarkExpired);
  }

  /** One iteration of `checkExpiredCertificates`: certificate `cs[i]` is e-mailed about
      and, when the mailer accepts, it and its vendor are marked expired. */
  method ExpireCertificate(db: Database, st: Settings, send: Email -> bool, vs: seq<Vendor>,
                           cs: seq<Certificate>, now: int, i: int)
    returns (notice: seq<string>)
    requires CertsLinked(vs, cs) && 0 <= i < |cs| && |db.certificates| == |cs| && db.certificates[i] == cs[i]
    modifies db
    ensures db.requests == old(db.requests)
    ensures db.certificates == old(db.certificates)[i := AfterExpired(st, send, vs, cs[i], now)]
    ensures ExpiredSent(st, send, vs, cs[i], now) ==>
      db.vendors == UpdateVendor(old(db.vendors), cs[i].vendorId, MarkExpired)
    ensures !ExpiredSent(st, send, vs, cs[i], now) ==> db.vendors == old(db.vendors)
    ensures notice == ExpiredNotice(st, send, vs, cs[i], now)
  {
    var cert := cs[i];
    notice := [];
    if ExpiredCandidate(cert, now) {
      var vendor := FindVendor(vs, cert.vendorId).value;
      var success := send(ExpiredEmail(st, vendor, cert, now));
      if success {
        db.certificates := db.certificates[i := cert.(complianceStatus := "expired", notifiedDate := Some(now))];
        db.vendors := UpdateVendor(db.vendors, cert.vendorId, MarkExpired);
        notice := ["Sent expiration alert for " + vendor.name + " - " + cert.coverageType];
      }
    }
  }

  /** The certificate table part-way through the expired pass: the first `i` done. */
  function ExpiredUpTo(st: Settings, send: Email -> bool, vs: seq<Vendor>, cs: seq<Certificate>, now: int, i: int): (ds: seq<Certificate>)
    requires CertsLinked(vs, cs) && 0 <= i <= |cs|
    ensures |ds| == |cs|
  {
    seq(|cs|, j requires 0 <= j < |cs| => if j < i then AfterExpired(st, send, vs, cs[j], now) else cs[j])
  }

  lemma ExpiredUpToEnds(st: Settings, send: Email -> bool, vs: seq<Vendor>, cs: seq<Certificate>, now: int)
    requires CertsLinked(vs, cs)
    ensures ExpiredUpTo(st, send, vs, cs, now, 0) == cs
    ensures ExpiredUpTo(st, send, vs, cs, now, |cs|) == ExpiredPass(st, send, vs, cs, now)
  {
  }

  lemma ExpiredUpToStep(st: Settings, send: Email -> bool, vs: seq<Vendor>, cs: seq<Certificate>, now: int, i: int)
    requires CertsLinked(vs, cs) && 0 <= i < |cs|
    ensures ExpiredUpTo(st, send, vs, cs, now, i + 1)
            == ExpiredUpTo(st, send, vs, cs, now, i)[i := AfterExpired(st, send, vs, cs[i], now)]
  {
  }

  /** One iteration of the expired pass, stated against the loop's invariant. */
  method ExpireNext(db: Database, st: Settings, send: Email -> bool, vs: seq<Vendor>,
                    cs: seq<Certificate>, now: int, i: int, notifications: seq<string>)
    returns (next: seq<string>)
    requires CertsLinked(vs, cs) && 0 <= i < |cs|
    requires db.certificates == ExpiredUpTo(st, send, vs, cs, now, i)
    requires CertsLinked(vs, cs[..i])
    requires db.vendors == PatchVendors(vs, ExpiredVendorIds(st, send, vs, cs[..i], now), MarkExpired)
    requires notifications == ExpiredNotices(st, send, vs, cs[..i], now)
    modifies db
    ensures db.requests == old(db.requests)
    ensures db.certificates == ExpiredUpTo(st, send, vs, cs, now, i + 1)
    ensures CertsLinked(vs, cs[..i + 1])
    ensures db.vendors == PatchVendors(vs, ExpiredVendorIds(st, send, vs, cs[..i + 1], now), MarkExpired)
    ensures next == ExpiredNotices(st, send, vs, cs[..i + 1], now)
  {
    ExpiredStep(st, send, vs, cs, now, i);
    ExpiredVendorsStep(st, send, vs, cs, now, i);
    ExpiredUpToStep(st, send, vs, cs, now, i);
    var notice := ExpireCertificate(db, st, send, vs, cs, now, i);
    next := notifications + notice;
  }

  /** `checkExpiredCertificates`; the e-mails use the vendor rows read with the certificates. */
  method CheckExpiredCertificates(db: Database, st: Settings, send: Email -> bool, now: int)
    returns (notifications: seq<string>)
    requires db.Valid()
    modifies db
    ensures db.Valid()
    ensures db.requests == old(db.requests)
    ensures db.certificates == ExpiredPass(st, send, old(db.vendors), old(db.certificates), now)
    ensures db.vendors == ExpiredVendors(st, send, old(db.vendors), old(db.certificates), now)
    ensures notifications == ExpiredNotices(st, send, old(db.vendors), old(db.certificates), now)
  {
    var cs := db.certificates;
    var vs := db.vendors;
    ExpiredUpToEnds(st, send, vs, cs, now);
    assert cs[..0] == [];
    notifications := [];
    var i := 0;
    while i < |cs|
      invariant 0 <= i <= |cs|
      invariant db.requests == old(db.requests) && CertsLinked(vs, cs)
      invariant db.certificates == ExpiredUpTo(st, send, vs, cs, now, i)
      invariant CertsLinked(vs, cs[..i])
      invariant db.vendors == PatchVendors(vs, ExpiredVendorIds(st, send, vs, cs[..i], now), MarkExpired)
      invariant notifications == ExpiredNotices(st, send, vs, cs[..i], now)
    {
      notifications := ExpireNext(db, st, send, vs, cs, now, i, notifications);
      i := i + 1;
    }
    assert cs[..|cs|] == cs;
    LinkedAfterUpdate(vs, cs, db.requests, db.vendors, db.certificates, db.requests);
  }

  // ---------------------------------------------------------------- non-compliance pass

  /** The `findMany` filter of `checkNonCompliantCertificates`: marked non-compliant
      and updated within the last day. */
  predicate NonCompliantCandidate(v: Vendor, now: int) {
    v.insuranceStatus == "non_compliant" && v.updatedAt >= now - DayMs
  }

  predicate NonCompliantRequestOf(r: CertificateRequest, vendorId: string) {
    r.vendorId == vendorId && r.status == "non_compliant"
  }

  /** The vendor's `certificateRequests` filtered to `non_compliant`, newest first,
      `take: 1`; among requests created at the same instant the first stored wins. */
  function LatestNonCompliantRequest(rs: seq<CertificateRequest>, vendorId: string): (r: Option<CertificateRequest>)
    ensures r.Some? <==> exists k :: 0 <= k < |rs| && NonCompliantRequestOf(rs[k], vendorId)
    ensures r.Some? ==> r.value in rs && NonCompliantRequestOf(r.value, vendorId)
    ensures r.Some? ==> forall k :: 0 <= k < |rs| && NonCompliantRequestOf(rs[k], vendorId) ==> rs[k].createdAt <= r.value.createdAt
  {
    if rs == [] then None
    else
      var rest := LatestNonCompliantRequest(rs[1..], vendorId);
      assert forall k :: 1 <= k < |rs| ==> rs[k] == rs[1..][k - 1];
      if NonCompliantRequestOf(rs[0], vendorId) && (rest.None? || rest.value.createdAt <= rs[0].createdAt)
      then Some(rs[0])
      else rest
  }

  /** `coverageType.replace(/_/g, ' ')`. */
  function Spaced(coverageType: string): string {
    ReplaceAll(coverageType, '_', ' ')
  }

  function MissingLine(coverageType: string): string {
    "Missing required coverage: " + Spaced(coverageType)
  }

  function LimitLine(st: Settings, coverageType: string, g: LimitGap): string {
    Spaced(coverageType) + ": " + g.limitName + " is insufficient (required: $" + st.formatNumber(g.required)
    + ", actual: $" + st.formatNumber(g.actual) + ")"
  }

  /** The gap lines one coverage result contributes: one for a missing coverage,
      one per limit gap of a found coverage whose limits fail, none otherwise. */
  function CoverageLines(st: Settings, c: CoverageResult): seq<string> {
    if !c.found then [MissingLine(c.coverageType)]
    else if !c.limitsPass && c.limitsGaps.Some? then
      var gs := c.limitsGaps.value;
      seq(|gs|, k requires 0 <= k < |gs| => LimitLine(st, c.coverageType, gs[k]))
    else []
  }

  /** The gap lines of a list of coverage results, in order. */
  function GapLines(st: Settings, cs: seq<CoverageResult>): seq<string>
    decreases |cs|
  {
    if cs == [] then [] else GapLines(st, cs[..|cs| - 1]) + CoverageLines(st, cs[|cs| - 1])
  }

  /** The `gaps` list sent for a stored compliance result: its gap lines, or the
      generic line when there are none. */
  function ComplianceGaps(st: Settings, result: ComplianceResult): (gaps: seq<string>)
    ensures gaps != []
    ensures result.coverageResults.None? ==> gaps == [GenericGap]
    ensures result.coverageResults.Some? && GapLines(st, result.coverageResults.value) != [] ==>
      gaps == GapLines(st, result.coverageResults.value)
    ensures result.coverageResults.Some? && GapLines(st, result.coverageResults.value) == [] ==>
      gaps == [GenericGap]
  {
    var lines := if result.coverageResults.Some? then GapLines(st, result.coverageResults.value) else [];
    if lines == [] then [GenericGap] else lines
  }

  lemma {:induction false} GapLinesAppend(st: Settings, a: seq<CoverageResult>, b: seq<CoverageResult>)
    ensures GapLines(st, a + b) == GapLines(st, a) + GapLines(st, b)
    decreases |b|
  {
    if b == [] {
      assert a + b == a;
    } else {
      var n := |b| - 1;
      var ab := a + b;
      assert ab[..|ab| - 1] == a + b[..n] && ab[|ab| - 1] == b[n];
      assert GapLines(st, ab) == GapLines(st, a + b[..n]) + CoverageLines(st, b[n]);
      assert GapLines(st, b) == GapLines(st, b[..n]) + CoverageLines(st, b[n]);
      GapLinesAppend(st, a, b[..n]);
    }
  }

  /** Every line a coverage result contributes is in the gap list. */
  lemma {:induction false} CoverageLinesReported(st: Settings, cs: seq<CoverageResult>, k: int)
    requires 0 <= k < |cs|
    ensures forall line :: line in CoverageLines(st, cs[k]) ==> line in GapLines(st, cs)
  {
    assert cs == cs[..k] + [cs[k]] + cs[k + 1..];
    GapLinesAppend(st, cs[..k] + [cs[k]], cs[k + 1..]);
    GapLinesAppend(st, cs[..k], [cs[k]]);
    assert GapLines(st, [cs[k]]) == CoverageLines(st, cs[k]) by {
      assert [cs[k]][..0] == [];
    }
  }

  /** A missing coverage is reported with its name, underscores shown as spaces. */
  lemma MissingCoverageReported(st: Settings, cs: seq<CoverageResult>, k: int)
    requires 0 <= k < |cs| && !cs[k].found
    ensures MissingLine(cs[k].coverageType) in GapLines(st, cs)
    ensures '_' !in Spaced(cs[k].coverageType)
  {
    CoverageLinesReported(st, cs, k);
  }

  /** Each limit gap of a found coverage whose limits fail is reported. */
  lemma LimitGapReported(st: Settings, cs: seq<CoverageResult>, k: int, m: int)
    requires 0 <= k < |cs| && cs[k].found && !cs[k].limitsPass && cs[k].limitsGaps.Some?
    requires 0 <= m < |cs[k].limitsGaps.value|
    ensures LimitLine(st, cs[k].coverageType, cs[k].limitsGaps.value[m]) in GapLines(st, cs)
  {
    CoverageLinesReported(st, cs, k);
    assert CoverageLines(st, cs[k])[m] == LimitLine(st, cs[k].coverageType, cs[k].limitsGaps.value[m]);
  }

  /** Nothing else is reported: every gap line comes from one coverage result. */
  lemma {:induction false} GapLinesFromCoverages(st: Settings, cs: seq<CoverageResult>, line: string)
    requires line in GapLines(st, cs)
    ensures exists k :: 0 <= k < |cs| && line in CoverageLines(st, cs[k])
    decreases |cs|
  {
    var n := |cs| - 1;
    if line in GapLines(st, cs[..n]) {
      GapLinesFromCoverages(st, cs[..n], line);
      var k :| 0 <= k < n && line in CoverageLines(st, cs[..n][k]);
      assert cs[..n][k] == cs[k];
    } else {
      assert line in CoverageLines(st, cs[n]);
    }
  }

  /** Coverages that are found and pass their limits contribute nothing, and so
      a result without gaps is reported with the generic line. */
  lemma {:induction false} AllPassingGivesGenericGap(st: Settings, result: ComplianceResult)
    requires result.coverageResults.Some?
    requires forall k :: 0 <= k < |result.coverageResults.value| ==>
      result.coverageResults.value[k].found && result.coverageResults.value[k].limitsPass
    ensures ComplianceGaps(st, result) == [GenericGap]
  {
    var cs := result.coverageResults.value;
    if GapLines(st, cs) != [] {
      GapLinesFromCoverages(st, cs, GapLines(st, cs)[0]);
      assert false;
    }
  }

  /** The gap list of `checkNonCompliantCertificates`, built with nested loops. */
  method BuildGaps(st: Settings, result: ComplianceResult) returns (gaps: seq<string>)
    ensures gaps == ComplianceGaps(st, result)
  {
    gaps := [];
    if result.coverageResults.Some? {
      var coverages := result.coverageResults.value;
      var i := 0;
      while i < |coverages|
        invariant 0 <= i <= |coverages|
        invariant gaps == GapLines(st, coverages[..i])
      {
        var coverage := coverages[i];
        assert coverages[..i + 1][..i] == coverages[..i];
        if !coverage.found {
          gaps := gaps + [MissingLine(coverage.coverageType)];
        } else if !coverage.limitsPass && coverage.limitsGaps.Some? {
          var limitsGaps := coverage.limitsGaps.value;
          ghost var before := gaps;
          var m := 0;
          while m < |limitsGaps|
            invariant 0 <= m <= |limitsGaps|
            invariant gaps == before + CoverageLines(st, coverage)[..m]
          {
            gaps := gaps + [LimitLine(st, coverage.coverageType, limitsGaps[m])];
            assert CoverageLines(st, coverage)[..m + 1] == CoverageLines(st, coverage)[..m] + [CoverageLines(st, coverage)[m]];
            m := m + 1;
          }
          assert CoverageLines(st, coverage)[..m] == CoverageLines(st, coverage);
        }
        i := i + 1;
      }
      assert coverages[..i] == coverages;
    }
    if gaps == [] {
      gaps := [GenericGap];
    }
  }

  function NonCompliantEmail(st: Settings, v: Vendor, gaps: seq<string>): Email {
    Email(Recipients(st.recipientsVariable),
          "Non-Compliant Certificate: " + v.name,
          NonCompliantBody(NonCompliantData(v.name, v.id, gaps, VendorPage(st, v))))
  }

  /** The gap list the pass would send for vendor `v`, or nothing when the vendor has no
      non-compliant request or its latest one has no stored compliance result. */
  function VendorGaps(st: Settings, rs: seq<CertificateRequest>, v: Vendor): Option<seq<string>> {
    match LatestNonCompliantRequest(rs, v.id)
    case None => None
    case Some(r) =>
      match r.complianceResult
      case None => None
      case Some(result) => Some(ComplianceGaps(st, result))
  }

  /** The non-compliance pass e-mails vendor `v` and the mailer accepts the e-mail. */
  predicate NonCompliantSent(st: Settings, send: Email -> bool, rs: seq<CertificateRequest>, v: Vendor, now: int) {
    NonCompliantCandidate(v, now) && VendorGaps(st, rs, v).Some?
    && send(NonCompliantEmail(st, v, VendorGaps(st, rs, v).value))
  }

  /** The `notifications` list of the non-compliance pass over the vendors `vs`. */
  function NonCompliantNotices(st: Settings, send: Email -> bool, vs: seq<Vendor>, rs: seq<CertificateRequest>, now: int): seq<string>
    decreases |vs|
  {
    if vs == [] then []
    else
      var v := vs[|vs| - 1];
      NonCompliantNotices(st, send, vs[..|vs| - 1], rs, now)
      + (if NonCompliantSent(st, send, rs, v, now) then ["Sent non-compliance notice for " + v.name] else [])
  }

  /** `checkNonCompliantCertificates`; it writes nothing. */
  method CheckNonCompliantCertificates(db: Database, st: Settings, send: Email -> bool, now: int)
    returns (notifications: seq<string>)
    ensures notifications == NonCompliantNotices(st, send, db.vendors, db.requests, now)
  {
    var vs := db.vendors;
    notifications := [];
    var i := 0;
    while i < |vs|
      invariant 0 <= i <= |vs|
      invariant notifications == NonCompliantNotices(st, send, vs[..i], db.requests, now)
    {
      var vendor := vs[i];
      assert vs[..i + 1][..i] == vs[..i];
      if NonCompliantCandidate(vendor, now) {
        var latestRequest := LatestNonCompliantRequest(db.requests, vendor.id);
        if latestRequest.Some? && latestRequest.value.complianceResult.Some? {
          var gaps := BuildGaps(st, latestRequest.value.complianceResult.value);
          var success := send(NonCompliantEmail(st, vendor, gaps));
          if success {
            notifications := notifications + ["Sent non-compliance notice for " + vendor.name];
          }
        }
      }
      i := i + 1;
    }
    assert vs[..|vs|] == vs;
  }

  // ---------------------------------------------------------------- pending-request pass

  /** The `findMany` filter of `checkPendingRequests`: pending or fulfilled and
      created at least 7 days ago. */
  predicate PendingCandidate(r: CertificateRequest, now: int) {
    (r.status == "pending" || r.status == "fulfilled") && r.createdAt <= now - 7 * DayMs
  }

  /** `daysPending`, rounded up. */
  function DaysPending(r: CertificateRequest, now: int): int {
    DaysBetween(r.createdAt, now)
  }

  /** A reminder is due on whole weeks of pending. */
  predicate ReminderDue(r: CertificateRequest, now: int) {
    PendingCandidate(r, now) && DaysPending(r, now) % 7 == 0
  }

  function PendingEmail(st: Settings, v: Vendor, r: CertificateRequest, now: int): Email {
    var days := DaysPending(r, now);
    Email(Recipients(st.recipientsVariable),
          "Pending Certificate Request: " + v.name + " (" + IntToString(days) + " days)",
          PendingBody(PendingRequestData(v.name, OrElse(v.brokerEmail, "Not provided"), OrElse(v.brokerName, ""),
                                         st.formatDate(r.createdAt), days, VendorPage(st, v))))
  }

  predicate PendingSent(st: Settings, send: Email -> bool, vs: seq<Vendor>, r: CertificateRequest, now: int)
    requires HasVendor(vs, r.vendorId)
  {
    ReminderDue(r, now) && send(PendingEmail(st, FindVendor(vs, r.vendorId).value, r, now))
  }

  function PendingNotice(st: Settings, send: Email -> bool, vs: seq<Vendor>, r: CertificateRequest, now: int): seq<string>
    requires HasVendor(vs, r.vendorId)
  {
    if PendingSent(st, send, vs, r, now)
    then ["Sent pending request reminder for " + FindVendor(vs, r.vendorId).value.name
          + " (" + IntToString(DaysPending(r, now)) + " days)"]
    else []
  }

  /** The `notifications` list of the pending-request pass over the requests `rs`. */
  function PendingNotices(st: Settings, send: Email -> bool, vs: seq<Vendor>, rs: seq<CertificateRequest>, now: int): seq<string>
    requires RequestsLinked(vs, rs)
    decreases |rs|
  {
    if rs == [] then []
    else PendingNotices(st, send, vs, rs[..|rs| - 1], now) + PendingNotice(st, send, vs, rs[|rs| - 1], now)
  }

  /** Processing one more request of the pending-request pass. */
  lemma PendingStep(st: Settings, send: Email -> bool, vs: seq<Vendor>, rs: seq<CertificateRequest>, now: int, i: int)
    requires RequestsLinked(vs, rs) && 0 <= i < |rs|
    ensures RequestsLinked(vs, rs[..i]) && RequestsLinked(vs, rs[..i + 1])
    ensures PendingNotices(st, send, vs, rs[..i + 1], now)
            == PendingNotices(st, send, vs, rs[..i], now) + PendingNotice(st, send, vs, rs[i], now)
  {
    assert rs[..i + 1][..i] == rs[..i];
    assert rs[..i + 1][i] == rs[i];
  }

  /** One iteration of `checkPendingRequests`: a reminder for `rs[i]` on whole weeks of pending. */
  method RemindPending(st: Settings, send: Email -> bool, vs: seq<Vendor>, rs: seq<CertificateRequest>,
                       now: int, i: int, notifications: seq<string>)
    returns (next: seq<string>)
    requires RequestsLinked(vs, rs) && 0 <= i < |rs|
    requires RequestsLinked(vs, rs[..i]) && notifications == PendingNotices(st, send, vs, rs[..i], now)
    ensures RequestsLinked(vs, rs[..i + 1]) && next == PendingNotices(st, send, vs, rs[..i + 1], now)
  {
    PendingStep(st, send, vs, rs, now, i);
    next := notifications;
    var request := rs[i];
    if PendingCandidate(request, now) {
      var daysPending := CeilDiv(now - request.createdAt, DayMs);
      assert daysPending == DaysPending(request, now);
      if daysPending % 7 == 0 {
        var vendor := FindVendor(vs, request.vendorId).value;
        var success := send(PendingEmail(st, vendor, request, now));
        assert success == PendingSent(st, send, vs, request, now);
        if success {
          next := next + ["Sent pending request reminder for " + vendor.name
                          + " (" + IntToString(daysPending) + " days)"];
        }
      }
    }
  }

  /** `checkPendingRequests`; it writes nothing. */
  method CheckPendingRequests(db: Database, st: Settings, send: Email -> bool, now: int)
    returns (notifications: seq<string>)
    requires db.Valid()
    ensures notifications == PendingNotices(st, send, db.vendors, db.requests, now)
  {
    var rs := db.requests;
    var vs := db.vendors;
    assert rs[..0] == [];
    notifications := [];
    var i := 0;
    while i < |rs|
      invariant 0 <= i <= |rs|
      invariant RequestsLinked(vs, rs)
      invariant RequestsLinked(vs, rs[..i]) && notifications == PendingNotices(st, send, vs, rs[..i], now)
    {
      notifications := RemindPending(st, send, vs, rs, now, i, notifications);
      i := i + 1;
    }
    assert rs[..|rs|] == rs;
  }

  // ---------------------------------------------------------------- all passes

  datatype Results = Results(expiring: seq<string>, expired: seq<string>, nonCompliant: seq<string>, pending: seq<string>)

  /** The instants at which the four passes read the clock, one `new Date()` each, in
      the order the passes run. */
  datatype Instants = Instants(expiring: int, expired: int, nonCompliant: int, pending: int)

  /** `runNotificationChecks`: the four passes in order, each on the state the previous
      left and each at its own reading of the clock. */
  method RunNotificationChecks(db: Database, st: Settings, send: Email -> bool, clock: Instants)
    returns (results: Results, totalNotifications: nat)
    requires db.Valid()
    modifies db
    ensures db.Valid()
    ensures db.requests == old(db.requests)
    ensures var vs, cs := old(db.vendors), old(db.certificates);
      var afterExpiring := ExpiringPass(st, send, vs, cs, clock.expiring);
      CertsLinked(vs, afterExpiring)
      && results.expiring == ExpiringNotices(st, send, vs, cs, clock.expiring)
      && results.expired == ExpiredNotices(st, send, vs, afterExpiring, clock.expired)
      && db.certificates == ExpiredPass(st, send, vs, afterExpiring, clock.expired)
      && db.vendors == ExpiredVendors(st, send, vs, afterExpiring, clock.expired)
    ensures results.nonCompliant == NonCompliantNotices(st, send, db.vendors, db.requests, clock.nonCompliant)
    ensures results.pending == PendingNotices(st, send, db.vendors, db.requests, clock.pending)
    ensures totalNotifications == |results.expiring| + |results.expired| + |results.nonCompliant| + |results.pending|
  {
    var expiring := CheckExpiringCertificates(db, st, send, clock.expiring);
    var expired := CheckExpiredCertificates(db, st, send, clock.expired);
    var nonCompliant := CheckNonCompliantCertificates(db, st, send, clock.nonCompliant);
    var pending := CheckPendingRequests(db, st, send, clock.pending);
    results := Results(expiring, expired, nonCompliant, pending);
    totalNotifications := |expiring| + |expired| + |nonCompliant| + |pending|;
  }
}
