/**
 * What the notification passes promise, stated over the specification functions
 * of `NotificationService`: the day windows each pass selects, the cadence of the
 * expiring notices, the seven-day debounce, the one-time expired edge, the weekly
 * reminder, and the fact that every message stands for exactly one accepted e-mail.
 */
module NotificationProperties {
  import opened Common
  import opened Dates
  import opened Records
  import opened NotificationService

  // ---------------------------------------------------------------- expiring pass

  /** A selected certificate is between 0 and 90 ceil days away, and it is e-mailed
      at 90 and at 60 days and on every day from 30 down; 31 to 59 and 61 to 89 are skipped. */
  lemma ExpiringSchedule(c: Certificate, now: int)
    requires ExpiringCandidate(c, now)
    ensures var d := DaysBetween(now, c.expirationDate.value);
      0 <= d <= 90
      && (ShouldNotifyExpiring(d) <==> d <= 30 || d == 60 || d == 90)
      && (31 <= d <= 59 || 61 <= d <= 89 ==> !ShouldNotifyExpiring(d))
  {
    WithinDays(now, c.expirationDate.value, 90);
    SignOfDays(now, c.expirationDate.value);
  }

  /** A certificate is selected by ceil days exactly: the 90-day bound of the filter
      is the 90-day bound of the count. */
  lemma ExpiringWindowInDays(c: Certificate, now: int)
    requires c.expirationDate.Some? && (c.notifiedDate.None? || c.notifiedDate.value < now - 7 * DayMs)
    ensures ExpiringCandidate(c, now) <==>
      now <= c.expirationDate.value && DaysBetween(now, c.expirationDate.value) <= 90
  {
    WithinDays(now, c.expirationDate.value, 90);
  }

  /** The pass changes a certificate only when its e-mail is accepted, and then only its
      `notifiedDate`; a certificate so stamped is not selected again for seven days. */
  lemma ExpiringDebounce(st: Settings, send: Email -> bool, vs: seq<Vendor>, cs: seq<Certificate>,
                         now: int, k: int, later: int)
    requires CertsLinked(vs, cs) && 0 <= k < |cs|
    requires now <= later <= now + 7 * DayMs
    ensures !ExpiringSent(st, send, vs, cs[k], now) ==> ExpiringPass(st, send, vs, cs, now)[k] == cs[k]
    ensures ExpiringSent(st, send, vs, cs[k], now) ==>
      ExpiringPass(st, send, vs, cs, now)[k] == cs[k].(notifiedDate := Some(now))
      && !ExpiringCandidate(ExpiringPass(st, send, vs, cs, now)[k], later)
  {
  }

  /** The number of places where two tables of the same length differ. */
  function Changed(cs: seq<Certificate>, ds: seq<Certificate>): (n: nat)
    requires |cs| == |ds|
    ensures n <= |cs|
    decreases |cs|
  {
    if cs == [] then 0
    else Changed(cs[..|cs| - 1], ds[..|ds| - 1]) + (if cs[|cs| - 1] != ds[|ds| - 1] then 1 else 0)
  }

  lemma ExpiringPassPrefix(st: Settings, send: Email -> bool, vs: seq<Vendor>, cs: seq<Certificate>, now: int, n: int)
    requires CertsLinked(vs, cs) && 0 <= n <= |cs|
    ensures CertsLinked(vs, cs[..n])
    ensures ExpiringPass(st, send, vs, cs, now)[..n] == ExpiringPass(st, send, vs, cs[..n], now)
  {
  }

  /** A certificate changes in the expiring pass exactly when its e-mail is accepted,
      and then it gets one message. */
  lemma ExpiringChangeOne(st: Settings, send: Email -> bool, vs: seq<Vendor>, c: Certificate, now: int)
    requires HasVendor(vs, c.vendorId)
    ensures (AfterExpiring(st, send, vs, c, now) != c) == ExpiringSent(st, send, vs, c, now)
    ensures |ExpiringNotice(st, send, vs, c, now)| == if ExpiringSent(st, send, vs, c, now) then 1 else 0
  {
    if ExpiringSent(st, send, vs, c, now) {
      assert AfterExpiring(st, send, vs, c, now).notifiedDate == Some(now) != c.notifiedDate;
    }
  }

  /** Every message of the expiring pass stands for one certificate it stamped, and
      every certificate it stamped has its message. */
  lemma {:induction false} ExpiringNoticePerUpdate(st: Settings, send: Email -> bool, vs: seq<Vendor>,
                                                   cs: seq<Certificate>, now: int)
    requires CertsLinked(vs, cs)
    ensures |ExpiringNotices(st, send, vs, cs, now)| == Changed(cs, ExpiringPass(st, send, vs, cs, now))
    decreases |cs|
  {
    if cs != [] {
      var n := |cs| - 1;
      var ds := ExpiringPass(st, send, vs, cs, now);
      ExpiringPassPrefix(st, send, vs, cs, now, n);
      ExpiringNoticePerUpdate(st, send, vs, cs[..n], now);
      ExpiringChangeOne(st, send, vs, cs[n], now);
      assert ds[..|ds| - 1] == ExpiringPass(st, send, vs, cs[..n], now) && ds[n] == AfterExpiring(st, send, vs, cs[n], now);
      assert Changed(cs, ds) == Changed(cs[..n], ds[..n]) + (if cs[n] != ds[n] then 1 else 0);
      assert ExpiringNotices(st, send, vs, cs, now)
          == ExpiringNotices(st, send, vs, cs[..n], now) + ExpiringNotice(st, send, vs, cs[n], now);
    }
  }

  // ---------------------------------------------------------------- expired pass

  /** A certificate the expired pass selects expired less than a day ago, so its
      e-mail reports exactly one day overdue. */
  lemma ExpiredDaysOverdueIsOne(c: Certificate, now: int)
    requires ExpiredCandidate(c, now)
    ensures DaysBetween(c.expirationDate.value, now) == 1
  {
    CeilUnique(now - c.expirationDate.value, DayMs, 1);
  }

  /** The expired edge fires once: a certificate the pass marked is not selected by a
      rerun at any instant, and one whose e-mail was refused is left as it was. */
  lemma ExpiredRerunSkips(st: Settings, send: Email -> bool, vs: seq<Vendor>, cs: seq<Certificate>,
                          now: int, k: int, later: int)
    requires CertsLinked(vs, cs) && 0 <= k < |cs|
    ensures ExpiredSent(st, send, vs, cs[k], now) ==>
      ExpiredPass(st, send, vs, cs, now)[k] == cs[k].(complianceStatus := "expired", notifiedDate := Some(now))
      && !ExpiredCandidate(ExpiredPass(st, send, vs, cs, now)[k], later)
    ensures !ExpiredSent(st, send, vs, cs[k], now) ==> ExpiredPass(st, send, vs, cs, now)[k] == cs[k]
  {
  }

  lemma ExpiredPassPrefix(st: Settings, send: Email -> bool, vs: seq<Vendor>, cs: seq<Certificate>, now: int, n: int)
    requires CertsLinked(vs, cs) && 0 <= n <= |cs|
    ensures CertsLinked(vs, cs[..n])
    ensures ExpiredPass(st, send, vs, cs, now)[..n] == ExpiredPass(st, send, vs, cs[..n], now)
  {
  }

  /** A certificate changes in the expired pass exactly when its e-mail is accepted,
      and then it gets one message. */
  lemma ExpiredChangeOne(st: Settings, send: Email -> bool, vs: seq<Vendor>, c: Certificate, now: int)
    requires HasVendor(vs, c.vendorId)
    ensures (AfterExpired(st, send, vs, c, now) != c) == ExpiredSent(st, send, vs, c, now)
    ensures |ExpiredNotice(st, send, vs, c, now)| == if ExpiredSent(st, send, vs, c, now) then 1 else 0
  {
    if ExpiredSent(st, send, vs, c, now) {
      assert AfterExpired(st, send, vs, c, now).complianceStatus == "expired" != c.complianceStatus;
    }
  }

  /** Every message of the expired pass stands for one certificate it marked expired. */
  lemma {:induction false} ExpiredNoticePerUpdate(st: Settings, send: Email -> bool, vs: seq<Vendor>,
                                                  cs: seq<Certificate>, now: int)
    requires CertsLinked(vs, cs)
    ensures |ExpiredNotices(st, send, vs, cs, now)| == Changed(cs, ExpiredPass(st, send, vs, cs, now))
    decreases |cs|
  {
    if cs != [] {
      var n := |cs| - 1;
      var ds := ExpiredPass(st, send, vs, cs, now);
      ExpiredPassPrefix(st, send, vs, cs, now, n);
      ExpiredNoticePerUpdate(st, send, vs, cs[..n], now);
      ExpiredChangeOne(st, send, vs, cs[n], now);
      assert ds[..|ds| - 1] == ExpiredPass(st, send, vs, cs[..n], now) && ds[n] == AfterExpired(st, send, vs, cs[n], now);
      assert Changed(cs, ds) == Changed(cs[..n], ds[..n]) + (if cs[n] != ds[n] then 1 else 0);
      assert ExpiredNotices(st, send, vs, cs, now)
          == ExpiredNotices(st, send, vs, cs[..n], now) + ExpiredNotice(st, send, vs, cs[n], now);
    }
  }

  /** A vendor id is marked expired exactly when one of its certificates was e-mailed
      successfully by the expired pass. */
  lemma {:induction false} ExpiredVendorIdsExact(st: Settings, send: Email -> bool, vs: seq<Vendor>,
                                                 cs: seq<Certificate>, now: int, id: string)
    requires CertsLinked(vs, cs)
    ensures id in ExpiredVendorIds(st, send, vs, cs, now) <==>
      exists k :: 0 <= k < |cs| && cs[k].vendorId == id && ExpiredSent(st, send, vs, cs[k], now)
    decreases |cs|
  {
    if cs != [] {
      var n := |cs| - 1;
      assert CertsLinked(vs, cs[..n]);
      ExpiredVendorIdsExact(st, send, vs, cs[..n], now, id);
      if id in ExpiredVendorIds(st, send, vs, cs[..n], now) {
        var k :| 0 <= k < n && cs[..n][k].vendorId == id && ExpiredSent(st, send, vs, cs[..n][k], now);
        assert cs[k] == cs[..n][k];
      } else {
        assert forall k :: 0 <= k < n ==> cs[..n][k] == cs[k];
      }
    }
  }

  /** The expired pass changes only the status of the vendors it marks, and a vendor
      marked expired is not picked up by the non-compliance pass. */
  lemma ExpiredVendorsMarked(st: Settings, send: Email -> bool, vs: seq<Vendor>, cs: seq<Certificate>,
                             now: int, j: int, later: int)
    requires CertsLinked(vs, cs) && 0 <= j < |vs|
    ensures var ws := ExpiredVendors(st, send, vs, cs, now);
      (vs[j].id in ExpiredVendorIds(st, send, vs, cs, now) ==>
         ws[j] == vs[j].(insuranceStatus := "expired") && !NonCompliantCandidate(ws[j], later))
      && (vs[j].id !in ExpiredVendorIds(st, send, vs, cs, now) ==> ws[j] == vs[j])
  {
  }

  // ---------------------------------------------------------------- expiring, then expired

  /** The two certificate passes select disjoint certificates at the same instant. */
  lemma ExpiringExpiredDisjoint(c: Certificate, now: int)
    ensures !(ExpiringCandidate(c, now) && ExpiredCandidate(c, now))
  {
  }

  /** The expiring pass does not disturb the expired pass that follows it, whatever the
      two passes read from the clock: on its output the expired pass sends the same
      messages and marks the same vendors as on the original table. */
  lemma {:induction false} ExpiredAfterExpiring(st: Settings, send: Email -> bool, vs: seq<Vendor>,
                                                cs: seq<Certificate>, t1: int, t2: int)
    requires CertsLinked(vs, cs)
    ensures CertsLinked(vs, ExpiringPass(st, send, vs, cs, t1))
    ensures ExpiredNotices(st, send, vs, ExpiringPass(st, send, vs, cs, t1), t2)
            == ExpiredNotices(st, send, vs, cs, t2)
    ensures ExpiredVendorIds(st, send, vs, ExpiringPass(st, send, vs, cs, t1), t2)
            == ExpiredVendorIds(st, send, vs, cs, t2)
    decreases |cs|
  {
    var ds := ExpiringPass(st, send, vs, cs, t1);
    assert CertsLinked(vs, ds) by {
      forall i | 0 <= i < |ds| ensures HasVendor(vs, ds[i].vendorId) {
        assert ds[i].vendorId == cs[i].vendorId;
      }
    }
    if cs != [] {
      var n := |cs| - 1;
      ExpiringPassPrefix(st, send, vs, cs, t1, n);
      ExpiredAfterExpiring(st, send, vs, cs[..n], t1, t2);
      assert ds[..|ds| - 1] == ExpiringPass(st, send, vs, cs[..n], t1);
      assert ds[n] == cs[n] || ds[n] == cs[n].(notifiedDate := Some(t1));
      if cs[n].expirationDate.Some? {
        assert ExpiredEmail(st, FindVendor(vs, cs[n].vendorId).value, ds[n], t2)
               == ExpiredEmail(st, FindVendor(vs, cs[n].vendorId).value, cs[n], t2);
      }
      assert ExpiredSent(st, send, vs, ds[n], t2) == ExpiredSent(st, send, vs, cs[n], t2);
      assert ds[n].vendorId == cs[n].vendorId && ds[n].coverageType == cs[n].coverageType;
    }
  }

  /** Each pass reads the clock for itself, so the disjointness above does not carry
      over to a run: a certificate that expires at the instant of the expiring pass
      gets its last expiring notice then, and its expiration alert from an expired
      pass that reads the clock later in the same day. */
  lemma BothNoticesInOneRun(st: Settings, send: Email -> bool, vs: seq<Vendor>, c: Certificate, t1: int, t2: int)
    requires HasVendor(vs, c.vendorId)
    requires c.expirationDate == Some(t1) && c.notifiedDate.None? && c.complianceStatus != "expired"
    requires t1 < t2 <= t1 + DayMs
    requires forall e :: send(e)
    ensures ExpiringNotices(st, send, vs, [c], t1)
            == ["Sent expiration notice for " + FindVendor(vs, c.vendorId).value.name + " - " + c.coverageType]
    ensures ExpiredNotices(st, send, vs, ExpiringPass(st, send, vs, [c], t1), t2)
            == ["Sent expiration alert for " + FindVendor(vs, c.vendorId).value.name + " - " + c.coverageType]
  {
    assert DaysBetween(t1, t1) == 0;
    assert ExpiringSent(st, send, vs, c, t1);
    assert [c][..0] == [];
    ExpiredAfterExpiring(st, send, vs, [c], t1, t2);
    assert ExpiredSent(st, send, vs, c, t2);
  }

  // ---------------------------------------------------------------- pending-request pass

  /** A selected request has been pending at least seven ceil days, so the day count
      is positive and `%` agrees with JavaScript's. */
  lemma PendingAtLeastSevenDays(r: CertificateRequest, now: int)
    requires PendingCandidate(r, now)
    ensures DaysPending(r, now) >= 7
  {
    WithinDays(r.createdAt, now, 6);
  }

  /** A week later the same request is still selected and is seven days older, so a
      reminder due today is due again in a week, and the days in between are not. */
  lemma PendingWeekly(r: CertificateRequest, now: int, extra: int)
    requires PendingCandidate(r, now) && 0 <= extra
    ensures PendingCandidate(r, now + extra * DayMs)
    ensures DaysPending(r, now + extra * DayMs) == DaysPending(r, now) + extra
    ensures ReminderDue(r, now) ==> (ReminderDue(r, now + extra * DayMs) <==> extra % 7 == 0)
  {
    var d := DaysPending(r, now);
    assert (d + extra - 1) * DayMs == (d - 1) * DayMs + extra * DayMs;
    assert (d + extra) * DayMs == d * DayMs + extra * DayMs;
    CeilUnique(now + extra * DayMs - r.createdAt, DayMs, d + extra);
  }

  // ---------------------------------------------------------------- non-compliance pass

  /** A vendor without a non-compliant request, or whose latest one carries no stored
      result, is never e-mailed by the non-compliance pass. */
  lemma NonCompliantSkipped(st: Settings, send: Email -> bool, rs: seq<CertificateRequest>, v: Vendor, now: int)
    ensures (forall k :: 0 <= k < |rs| ==> !NonCompliantRequestOf(rs[k], v.id)) ==>
      !NonCompliantSent(st, send, rs, v, now)
    ensures LatestNonCompliantRequest(rs, v.id).Some?
            && LatestNonCompliantRequest(rs, v.id).value.complianceResult.None? ==>
      !NonCompliantSent(st, send, rs, v, now)
  {
  }
}
