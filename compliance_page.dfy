/**
 * The compliance page (`/compliance`): the flagged-certificate query built from
 * the URL filters, its ordering (including the client-side sort by vendor name),
 * the summary counts, the status badge and the vendor avatar of each row.
 */
module CompliancePage {
  import opened Common
  import opened Text
  import opened Dates
  import opened Records
  import opened Buckets
  import opened SortControls

  // ---------------------------------------------------------------- status badge

  /** The label of `statusBadge`: `compliant` wins over any day count; then the day
      count by threshold; then the non-compliant statuses; otherwise the raw status. */
  function StatusBadge(days: Option<int>, status: string): (label_: string)
    ensures status == "compliant" ==> label_ == "Compliant"
  {
    if status == "compliant" then "Compliant"
    else if days.Some? && days.value < 0 then "Expired"
    else if days.Some? && days.value <= 30 then "Expiring Soon"
    else if days.Some? && days.value <= 60 then "Expiring"
    else if days.Some? && days.value <= 90 then "Watch"
    else if status == "non_compliant" || status == "pending" then "Non-Compliant"
    else status
  }

  /** Within 90 days the day count alone decides the badge of a certificate that is
      not compliant: its status, `non_compliant` and `pending` included, plays no part. */
  lemma BadgeIgnoresStatusWithinWindow(d: int, s1: string, s2: string)
    requires d <= 90 && s1 != "compliant" && s2 != "compliant"
    ensures StatusBadge(Some(d), s1) == StatusBadge(Some(d), s2)
  {
  }

  /** Outside the day thresholds the status decides: `non_compliant` and `pending`
      read "Non-Compliant", and any other status is shown as it is stored. */
  lemma BadgeOutsideWindow(days: Option<int>, status: string)
    requires status != "compliant" && (days.None? || days.value > 90)
    ensures StatusBadge(days, status) == if status in {"non_compliant", "pending"} then "Non-Compliant" else status
  {
  }

  /** The day thresholds split the days up to 90 into four bands, one label each. */
  lemma BadgeBands(d: int, status: string)
    requires status != "compliant" && d <= 90
    ensures StatusBadge(Some(d), status) == "Expired" <==> d < 0
    ensures StatusBadge(Some(d), status) == "Expiring Soon" <==> 0 <= d <= 30
    ensures StatusBadge(Some(d), status) == "Expiring" <==> 31 <= d <= 60
    ensures StatusBadge(Some(d), status) == "Watch" <==> 61 <= d <= 90
  {
    assert |"Expired"| == 7 && |"Expiring Soon"| == 13 && |"Expiring"| == 8 && |"Watch"| == 5;
  }

  // ---------------------------------------------------------------- the flagged query

  /** One row of the flagged query: a certificate with its vendor's name. */
  datatype FlaggedRow = FlaggedRow(certificate: Certificate, vendorName: string)

  /** The conditions the `where` object is made of. `FlaggedBase` is the object
      `{ OR: [status in [non_compliant, pending], expirationDate <= in90] }`. */
  datatype Condition =
    | FlaggedBase(in90: int)
    | VendorNameContains(text: string)
    | CoverageTypeContains(text: string)
    | StatusEquals(status: string)

  /** The `where` object: its `OR` member while present, and its `AND` list. */
  datatype Where = Where(or: Option<Condition>, and: seq<Condition>)

  predicate Holds(cond: Condition, row: FlaggedRow) {
    var c := row.certificate;
    match cond
    case FlaggedBase(in90) =>
      c.complianceStatus in {"non_compliant", "pending"}
      || (c.expirationDate.Some? && c.expirationDate.value <= in90)
    case VendorNameContains(s) => ContainsInsensitive(row.vendorName, s)
    case CoverageTypeContains(s) => ContainsInsensitive(c.coverageType, s)
    case StatusEquals(s) => c.complianceStatus == s
  }

  /** The rows a `where` object selects: its `OR` member (if any) and every `AND` entry. */
  predicate Selects(w: Where, row: FlaggedRow) {
    (w.or.None? || Holds(w.or.value, row)) && AllHold(w.and, row)
  }

  /** Every condition of a list holds. */
  predicate AllHold(fs: seq<Condition>, row: FlaggedRow) {
    forall i :: 0 <= i < |fs| ==> Holds(fs[i], row)
  }

  /** Flagged: non-compliant or pending, or a present date at most 90 days ahead
      (a past date included). */
  predicate Flagged(c: Certificate, now: int) {
    c.complianceStatus in {"non_compliant", "pending"}
    || (c.expirationDate.Some? && c.expirationDate.value <= now + 90 * DayMs)
  }

  /** The URL filters a row satisfies; an empty filter imposes nothing. */
  predicate MatchesFilters(row: FlaggedRow, search: string, coverageType: string, status: string) {
    (search == "" || ContainsInsensitive(row.vendorName, search))
    && (coverageType == "" || ContainsInsensitive(row.certificate.coverageType, coverageType))
    && (status == "" || row.certificate.complianceStatus == status)
  }

  /** `search` and `coverageType` are trimmed, `complianceStatus` is taken as it is;
      a parameter that is absent (or repeated) counts as "". */
  function SearchParam(param: Option<string>): (s: string)
    ensures param.None? ==> s == ""
    ensures Trimmed(s)
  {
    Trim(param.GetOr(""))
  }

  lemma AllHoldConcat(fs: seq<Condition>, gs: seq<Condition>, row: FlaggedRow)
    ensures AllHold(fs + gs, row) <==> AllHold(fs, row) && AllHold(gs, row)
  {
    assert forall i :: 0 <= i < |fs| ==> (fs + gs)[i] == fs[i];
    assert forall i :: 0 <= i < |gs| ==> (fs + gs)[|fs| + i] == gs[i];
  }

  /** The condition a filter pushes, or none when the filter is empty. */
  function Push(nonEmpty: bool, cond: Condition): seq<Condition> {
    if nonEmpty then [cond] else []
  }

  lemma PushHolds(nonEmpty: bool, cond: Condition, row: FlaggedRow)
    ensures AllHold(Push(nonEmpty, cond), row) <==> (nonEmpty ==> Holds(cond, row))
  {
    if nonEmpty {
      assert Push(nonEmpty, cond)[0] == cond;
    }
  }

  /** The conditions the three non-empty filters push, in order. */
  function FilterConditions(search: string, coverageType: string, status: string): (fs: seq<Condition>)
    ensures fs == [] <==> search == "" && coverageType == "" && status == ""
  {
    Push(search != "", VendorNameContains(search))
    + Push(coverageType != "", CoverageTypeContains(coverageType))
    + Push(status != "", StatusEquals(status))
  }

  /** The pushed conditions hold of a row exactly when it matches the URL filters. */
  lemma FilterConditionsHold(search: string, coverageType: string, status: string, row: FlaggedRow)
    ensures AllHold(FilterConditions(search, coverageType, status), row) <==> MatchesFilters(row, search, coverageType, status)
  {
    var a := Push(search != "", VendorNameContains(search));
    var b := Push(coverageType != "", CoverageTypeContains(coverageType));
    var c := Push(status != "", StatusEquals(status));
    PushHolds(search != "", VendorNameContains(search), row);
    PushHolds(coverageType != "", CoverageTypeContains(coverageType), row);
    PushHolds(status != "", StatusEquals(status), row);
    AllHoldConcat(a, b, row);
    AllHoldConcat(a + b, c, row);
  }

  /** What the two shapes of `flaggedWhere` select: the base alone as `OR`, or the base
      first in `AND` followed by the filter conditions. */
  lemma WhereShapes(in90: int, filters: seq<Condition>, row: FlaggedRow)
    ensures Selects(Where(Some(FlaggedBase(in90)), []), row) <==> Holds(FlaggedBase(in90), row)
    ensures Selects(Where(None, [FlaggedBase(in90)] + filters), row)
            <==> Holds(FlaggedBase(in90), row) && AllHold(filters, row)
  {
    AllHoldConcat([FlaggedBase(in90)], filters, row);
    PushHolds(true, FlaggedBase(in90), row);
    assert Push(true, FlaggedBase(in90)) == [FlaggedBase(in90)];
  }

  /** Builds `flaggedWhere`: starts from the `OR` base, pushes one condition per
      non-empty filter and, when there are any, moves the base into `AND` in front
      of them and deletes `OR`. */
  method BuildFlaggedWhere(search: string, coverageType: string, status: string, now: int)
    returns (w: Where)
    ensures forall row :: Selects(w, row) <==> Flagged(row.certificate, now) && MatchesFilters(row, search, coverageType, status)
    ensures w.or.Some? <==> search == "" && coverageType == "" && status == ""
  {
    var in90 := now + 90 * DayMs;
    w := Where(Some(FlaggedBase(in90)), []);
    var filters: seq<Condition> := [];
    if search != "" {
      filters := filters + [VendorNameContains(search)];
    }
    assert filters == Push(search != "", VendorNameContains(search));
    ghost var before := filters;
    if coverageType != "" {
      filters := filters + [CoverageTypeContains(coverageType)];
    }
    assert filters == before + Push(coverageType != "", CoverageTypeContains(coverageType));
    before := filters;
    if status != "" {
      filters := filters + [StatusEquals(status)];
    }
    assert filters == before + Push(status != "", StatusEquals(status));
    assert filters == FilterConditions(search, coverageType, status);
    if |filters| > 0 {
      w := w.(and := [FlaggedBase(in90)] + filters);
      w := w.(or := None);
    }
    forall row: FlaggedRow
      ensures Selects(w, row) <==> Flagged(row.certificate, now) && MatchesFilters(row, search, coverageType, status)
    {
      FilterConditionsHold(search, coverageType, status, row);
      WhereShapes(in90, filters, row);
    }
  }

  /** Adding a filter only narrows: a row that passes a filter set still passes with
      any one of its filters emptied. */
  lemma FiltersNarrow(row: FlaggedRow, search: string, coverageType: string, status: string)
    requires MatchesFilters(row, search, coverageType, status)
    ensures MatchesFilters(row, "", coverageType, status)
    ensures MatchesFilters(row, search, "", status)
    ensures MatchesFilters(row, search, coverageType, "")
  {
  }

  // ---------------------------------------------------------------- ordering

  /** `orderBy` of the flagged query. */
  datatype OrderBy = ByCoverageType(o: SortOrder) | ByExpirationDate(o: SortOrder) | ByComplianceStatus(o: SortOrder)

  /** The three stored columns sort in the requested order; any other key, `vendor.name`
      included, sorts by expiration date ascending. */
  function OrderByFor(sort: string, order: SortOrder): (r: OrderBy)
    ensures sort == "coverageType" ==> r == ByCoverageType(order)
    ensures sort == "expirationDate" ==> r == ByExpirationDate(order)
    ensures sort == "complianceStatus" ==> r == ByComplianceStatus(order)
    ensures sort !in {"coverageType", "expirationDate", "complianceStatus"} ==> r == ByExpirationDate(Asc)
  {
    if sort == "coverageType" then ByCoverageType(order)
    else if sort == "expirationDate" then ByExpirationDate(order)
    else if sort == "complianceStatus" then ByComplianceStatus(order)
    else ByExpirationDate(Asc)
  }

  /** The sort key of a row for the vendor-name sort: `localeCompare` is taken as the
      comparison of a collation rank, and `desc` compares the other way round. */
  function NameKey(row: FlaggedRow, order: SortOrder, rank: string -> int): int {
    if order == Desc then -rank(row.vendorName) else rank(row.vendorName)
  }

  predicate SortedByName(rows: seq<FlaggedRow>, order: SortOrder, rank: string -> int) {
    forall k, l :: 0 <= k < l < |rows| ==> NameKey(rows[k], order, rank) <= NameKey(rows[l], order, rank)
  }

  /** The state of one insertion step: `s[..i + 1]` is sorted except for the moving
      element at `j`, which sorts strictly before everything it has passed. */
  predicate Inserting(s: seq<FlaggedRow>, j: int, i: int, order: SortOrder, rank: string -> int)
    requires 0 <= j <= i < |s|
  {
    (forall k, l :: 0 <= k < l <= i && k != j && l != j ==> NameKey(s[k], order, rank) <= NameKey(s[l], order, rank))
    && (forall l :: j < l <= i ==> NameKey(s[j], order, rank) < NameKey(s[l], order, rank))
  }

  /** Swapping the moving element with a left neighbour that sorts after it keeps the
      insertion state one place further left. */
  lemma SwapStep(s: seq<FlaggedRow>, j: int, i: int, order: SortOrder, rank: string -> int)
    requires 0 < j <= i < |s| && Inserting(s, j, i, order, rank)
    requires NameKey(s[j - 1], order, rank) > NameKey(s[j], order, rank)
    ensures Inserting(s[j - 1 := s[j]][j := s[j - 1]], j - 1, i, order, rank)
    ensures multiset(s[j - 1 := s[j]][j := s[j - 1]]) == multiset(s)
  {
    var t := s[j - 1 := s[j]][j := s[j - 1]];
    assert t[j - 1] == s[j] && t[j] == s[j - 1];
    assert forall k :: 0 <= k < |s| && k != j - 1 && k != j ==> t[k] == s[k];
    forall k, l | 0 <= k < l <= i && k != j - 1 && l != j - 1
      ensures NameKey(t[k], order, rank) <= NameKey(t[l], order, rank)
    {
      if l == j {
        assert t[k] == s[k] && t[l] == s[j - 1];
      } else if k == j {
        assert t[k] == s[j - 1] && t[l] == s[l];
      } else {
        assert t[k] == s[k] && t[l] == s[l];
      }
    }
  }

  /** The insertion state at its end is a sorted prefix. */
  lemma InsertDone(s: seq<FlaggedRow>, j: int, i: int, order: SortOrder, rank: string -> int)
    requires 0 <= j <= i < |s| && Inserting(s, j, i, order, rank)
    requires j == 0 || NameKey(s[j - 1], order, rank) <= NameKey(s[j], order, rank)
    ensures SortedByName(s[..i + 1], order, rank)
  {
  }

  /** `certs.sort(...)` when `sort` is `vendor.name`: sorts the fetched rows in place
      by vendor name. */
  method SortByVendorName(a: array<FlaggedRow>, order: SortOrder, rank: string -> int)
    modifies a
    ensures SortedByName(a[..], order, rank)
    ensures multiset(a[..]) == multiset(old(a[..]))
  {
    if a.Length == 0 {
      return;
    }
    var i := 1;
    while i < a.Length
      invariant 1 <= i <= a.Length
      invariant SortedByName(a[..i], order, rank)
      invariant multiset(a[..]) == multiset(old(a[..]))
    {
      InsertOne(a, i, order, rank);
      i := i + 1;
    }
    assert a[..a.Length] == a[..];
  }

  /** One insertion step: `a[i]` moves left past every element it sorts before. */
  method InsertOne(a: array<FlaggedRow>, i: int, order: SortOrder, rank: string -> int)
    requires 1 <= i < a.Length
    requires SortedByName(a[..i], order, rank)
    modifies a
    ensures SortedByName(a[..i + 1], order, rank)
    ensures multiset(a[..]) == multiset(old(a[..]))
  {
    var j := i;
    assert Inserting(a[..], j, i, order, rank) by {
      assert forall k :: 0 <= k < i ==> a[..i][k] == a[k];
    }
    while j > 0 && NameKey(a[j - 1], order, rank) > NameKey(a[j], order, rank)
      invariant 0 <= j <= i
      invariant Inserting(a[..], j, i, order, rank)
      invariant multiset(a[..]) == multiset(old(a[..]))
    {
      ghost var s := a[..];
      SwapStep(s, j, i, order, rank);
      a[j - 1], a[j] := a[j], a[j - 1];
      assert a[..] == s[j - 1 := s[j]][j := s[j - 1]];
      j := j - 1;
    }
    InsertDone(a[..], j, i, order, rank);
    assert a[..i + 1] == a[..][..i + 1];
  }

  // ---------------------------------------------------------------- summary counts

  datatype SummaryCounts = SummaryCounts(
    compliantCount: nat,
    nonCompliantCount: nat,
    expiredCount: nat,
    expiring30: nat,
    expiring60: nat,
    expiring90: nat)

  predicate NonCompliantOrPending(c: Certificate) {
    c.complianceStatus == "non_compliant" || c.complianceStatus == "pending"
  }

  /** The summary cards over every stored certificate. */
  function Counts(cs: seq<Certificate>, now: int): (s: SummaryCounts)
    ensures s.compliantCount <= |cs| && s.nonCompliantCount <= |cs|
  {
    SummaryCounts(
      CountWhere(cs, (c: Certificate) => c.complianceStatus == "compliant"),
      CountWhere(cs, NonCompliantOrPending),
      CountWhere(cs, c => Expired(c, now)),
      CountWhere(cs, c => ExpiringWithin(c, now, 30)),
      CountWhere(cs, c => ExpiringWithin(c, now, 60)),
      CountWhere(cs, c => ExpiringWithin(c, now, 90)))
  }

  /** The expiry cards are nested, each is disjoint from the expired card, and the
      compliant and non-compliant cards never count the same certificate. */
  lemma CountsNested(cs: seq<Certificate>, now: int)
    ensures var s := Counts(cs, now);
      s.expiring30 <= s.expiring60 <= s.expiring90
      && s.expiredCount + s.expiring90 <= |cs|
      && s.compliantCount + s.nonCompliantCount <= |cs|
  {
    CountNested(cs, now, 30, 60);
    CountNested(cs, now, 60, 90);
    CountExpiredApart(cs, now, 90);
    CountDisjoint(cs, (c: Certificate) => c.complianceStatus == "compliant", NonCompliantOrPending);
  }

  /** The non-compliant card counts `pending` certificates as well. */
  lemma PendingCountsAsNonCompliant(cs: seq<Certificate>, c: Certificate, now: int)
    requires c.complianceStatus == "pending"
    ensures Counts(cs + [c], now).nonCompliantCount == Counts(cs, now).nonCompliantCount + 1
  {
    assert (cs + [c])[..|cs + [c]| - 1] == cs;
  }

  // ---------------------------------------------------------------- avatar

  /** `getInitials`: the first two characters of a single word, otherwise the first
      letters of the first and the last word, upper-cased. */
  function GetInitials(name: string): (r: string)
    ensures |r| <= 2
  {
    var t := Trim(name);
    var words := Fields(t);
    if |words| == 1 then Upper(words[0][..if |words[0]| < 2 then |words[0]| else 2])
    else
      FieldsOfTrimmed(t);
      Upper([words[0][0], words[|words| - 1][0]])
  }

  /** Every word of a name of several words has a first letter. */
  lemma SeveralWordsNonEmpty(name: string, words: seq<string>)
    requires words == Fields(Trim(name)) && |words| > 1
    ensures words[0] != [] && words[|words| - 1] != []
  {
    var t := Trim(name);
    assert t != [] by {
      assert Fields([]) == [[]];
    }
    FieldsOfTrimmed(t);
  }

  lemma InitialsOfSeveralUnfold(name: string, words: seq<string>)
    requires words == Fields(Trim(name)) && |words| > 1
    requires words[0] != [] && words[|words| - 1] != []
    ensures GetInitials(name) == Upper([words[0][0], words[|words| - 1][0]])
  {
  }

  /** A name of several words gives two letters: the first of its first and of its
      last word. */
  lemma InitialsOfSeveralWords(name: string, words: seq<string>)
    requires words == Fields(Trim(name)) && |words| > 1
    ensures words[0] != [] && words[|words| - 1] != []
    ensures GetInitials(name) == [UpperChar(words[0][0]), UpperChar(words[|words| - 1][0])]
  {
    SeveralWordsNonEmpty(name, words);
    InitialsOfSeveralUnfold(name, words);
    UpperPair(words[0][0], words[|words| - 1][0]);
  }

  /** A name without inner whitespace gives its first (at most) two characters. */
  lemma InitialsOfOneWord(name: string)
    requires Trim(name) != [] && NoSpace(Trim(name))
    ensures var t := Trim(name);
      GetInitials(name) == Upper(t[..if |t| < 2 then |t| else 2])
  {
    SingleField(Trim(name));
    assert Fields(Trim(name)) == [Trim(name)];
  }

  /** The avatar palette index `name.charCodeAt(0) % 5`; an empty name has no code
      (NaN) and picks no colour, so reading it fails. */
  function AvatarIndex(name: string): (r: Option<nat>)
    ensures r.None? <==> name == []
    ensures r.Some? ==> r.value < 5 && r.value == name[0] as int % 5
  {
    if name == [] then None else Some(name[0] as int % 5)
  }
}
