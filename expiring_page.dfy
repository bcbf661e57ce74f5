/**
 * The expiring-certificates page (`/compliance/expiring`): the certificates that
 * expire within the next 90 days, soonest first, the two summary counts, and the
 * colour bands of each row.
 */
module ExpiringPage {
  import opened Common
  import opened Dates
  import opened Records
  import opened Buckets

  /** The query window `gte: now, lte: now + 90 days`; a certificate without a date is
      never in it. */
  predicate InWindow(c: Certificate, now: int) {
    ExpiringWithin(c, now, 90)
  }

  // ---------------------------------------------------------------- the listing

  /** The certificates in the window, in storage order. */
  function Window(cs: seq<Certificate>, now: int): (r: seq<Certificate>)
    ensures forall i :: 0 <= i < |r| ==> InWindow(r[i], now)
    ensures forall c :: multiset(r)[c] == if InWindow(c, now) then multiset(cs)[c] else 0
  {
    if cs == [] then []
    else
      var n := |cs| - 1;
      assert cs == cs[..n] + [cs[n]];
      Window(cs[..n], now) + (if InWindow(cs[n], now) then [cs[n]] else [])
  }

  function ExpiryKey(c: Certificate): int {
    c.expirationDate.GetOr(0)
  }

  predicate SortedByExpiry(cs: seq<Certificate>) {
    forall i, j :: 0 <= i < j < |cs| ==> ExpiryKey(cs[i]) <= ExpiryKey(cs[j])
  }

  /** Places `x` after every element that does not expire later. */
  function InsertByExpiry(s: seq<Certificate>, x: Certificate): (r: seq<Certificate>)
    requires SortedByExpiry(s)
    ensures SortedByExpiry(r)
    ensures multiset(r) == multiset(s) + multiset{x}
    ensures forall i :: 0 <= i < |r| ==> r[i] == x || r[i] in s
  {
    if s == [] then [x]
    else if ExpiryKey(x) < ExpiryKey(s[0]) then [x] + s
    else
      assert s == [s[0]] + s[1..];
      [s[0]] + InsertByExpiry(s[1..], x)
  }

  /** `orderBy: { expirationDate: "asc" }`. */
  function SortByExpiry(cs: seq<Certificate>): (r: seq<Certificate>)
    ensures SortedByExpiry(r)
    ensures multiset(r) == multiset(cs)
  {
    if cs == [] then []
    else
      var n := |cs| - 1;
      assert cs == cs[..n] + [cs[n]];
      InsertByExpiry(SortByExpiry(cs[..n]), cs[n])
  }

  /** `expiringCerts`: the window, soonest first. */
  function ExpiringCerts(cs: seq<Certificate>, now: int): (r: seq<Certificate>) {
    SortByExpiry(Window(cs, now))
  }

  /** The page lists exactly the stored certificates in the window, each as often as
      it is stored, in ascending expiration order. */
  lemma {:induction false} ListingExact(cs: seq<Certificate>, now: int)
    ensures var r := ExpiringCerts(cs, now);
      SortedByExpiry(r)
      && (forall c :: multiset(r)[c] == if InWindow(c, now) then multiset(cs)[c] else 0)
      && (forall c :: c in r <==> c in cs && InWindow(c, now))
  {
    var r := ExpiringCerts(cs, now);
    forall c
      ensures c in r <==> c in cs && InWindow(c, now)
    {
      assert c in r <==> multiset(r)[c] > 0;
      assert c in cs <==> multiset(cs)[c] > 0;
    }
  }

  /** Every listed certificate is between 0 and 90 ceil days away. */
  lemma ListedDays(cs: seq<Certificate>, now: int, c: Certificate)
    requires c in ExpiringCerts(cs, now)
    ensures DaysUntil(c.expirationDate, now).Some?
    ensures 0 <= DaysUntil(c.expirationDate, now).value <= 90
  {
    ListingExact(cs, now);
    WithinDays(now, c.expirationDate.value, 90);
    SignOfDays(now, c.expirationDate.value);
  }

  // ---------------------------------------------------------------- counts

  /** A listed certificate whose day count is below `n`. */
  predicate DaysBelow(c: Certificate, now: int, n: int) {
    var d := DaysUntil(c.expirationDate, now);
    d.Some? && d.value < n
  }

  /** `countUnder7` and `countUnder30`. */
  function CountUnder(listed: seq<Certificate>, now: int, n: int): (k: nat)
    ensures k <= |listed|
  {
    CountWhere(listed, c => DaysBelow(c, now, n))
  }

  /** `countUnder7 <= countUnder30 <= expiringCerts.length`. */
  lemma CountsOrdered(listed: seq<Certificate>, now: int)
    ensures CountUnder(listed, now, 7) <= CountUnder(listed, now, 30) <= |listed|
  {
    CountMonotone(listed, c => DaysBelow(c, now, 7), c => DaysBelow(c, now, 30));
  }

  /** A day count below `n` means the date is at most `n - 1` days ahead. */
  lemma DaysBelowMeans(c: Certificate, now: int, n: int)
    requires c.expirationDate.Some?
    ensures DaysBelow(c, now, n) <==> c.expirationDate.value <= now + (n - 1) * DayMs
  {
    WithinDays(now, c.expirationDate.value, n - 1);
  }

  // ---------------------------------------------------------------- colours

  /** `rowBackgroundColor`. */
  function RowBackgroundColor(days: Option<int>): (s: string)
    ensures days.None? ==> s == "#fff"
  {
    match days
    case None => "#fff"
    case Some(d) =>
      if d < 7 then "#FCE4EC" else if d < 30 then "#FFF3E0" else if d < 60 then "#FFF8E1" else "#fff"
  }

  /** The colour of the days text. */
  function DaysTextColor(d: int): (s: string) {
    if d < 7 then "#AE2573" else if d < 30 then "#E65100" else if d < 60 then "#F57F17" else "#53565A"
  }

  /** The band a day count falls in: below 7, below 30, below 60, or later. */
  function Band(d: int): (b: nat)
    ensures b < 4
    ensures b == 0 <==> d < 7
    ensures b == 3 <==> d >= 60
  {
    if d < 7 then 0 else if d < 30 then 1 else if d < 60 then 2 else 3
  }

  /** Row and text colours follow the same thresholds: two day counts share a row colour
      exactly when they share a text colour, exactly when they fall in the same band. */
  lemma SameThresholds(d: int, e: int)
    ensures RowBackgroundColor(Some(d)) == RowBackgroundColor(Some(e)) <==> Band(d) == Band(e)
    ensures DaysTextColor(d) == DaysTextColor(e) <==> Band(d) == Band(e)
  {
    var rows := ["#FCE4EC", "#FFF3E0", "#FFF8E1", "#fff"];
    var texts := ["#AE2573", "#E65100", "#F57F17", "#53565A"];
    assert RowBackgroundColor(Some(d)) == rows[Band(d)] && RowBackgroundColor(Some(e)) == rows[Band(e)];
    assert DaysTextColor(d) == texts[Band(d)] && DaysTextColor(e) == texts[Band(e)];
    assert rows[0][2] == 'C' && rows[1][2] == 'F' && rows[2][2] == 'F';
    assert rows[1][4] == '3' && rows[2][4] == '8' && |rows[3]| == 4;
    assert texts[0][1] == 'A' && texts[1][1] == 'E' && texts[2][1] == 'F' && texts[3][1] == '5';
  }
}
