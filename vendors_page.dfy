/**
 * The vendor list (`/vendors`): how the page reads its query parameters, which
 * slice of vendors it shows, the pagination bar with its page numbers and
 * ellipses, the query strings of its links, and the avatar and status chip of a
 * row.
 */
module VendorsPage {
  import opened Common
  import opened Text
  import opened QueryParams

  /** `PAGE_SIZE`. */
  const PageSize: nat := 25

  // ---------------------------------------------------------------- reading the page number

  /** The longest prefix of decimal digits. */
  function LeadingDigits(s: string): (r: string)
    ensures |r| <= |s| && r == s[..|r|]
    ensures forall i :: 0 <= i < |r| ==> IsDigit(r[i])
    ensures |r| < |s| ==> !IsDigit(s[|r|])
  {
    if s == [] || !IsDigit(s[0]) then [] else [s[0]] + LeadingDigits(s[1..])
  }

  /** `parseInt(s, 10)`: leading whitespace is skipped, then an optional sign and the
      longest run of digits are read; without a digit the result is NaN (`None`). */
  function ParseInt(s: string): (r: Option<int>) {
    var t := TrimStart(s);
    var signed := t != [] && (t[0] == '-' || t[0] == '+');
    var digits := LeadingDigits(if signed then t[1..] else t);
    if digits == [] then None
    else
      var v: int := DigitsValue(digits);
      if signed && t[0] == '-' then Some(-v) else Some(v)
  }

  /** `typeof page === "string" ? Math.max(1, parseInt(page, 10) || 1) : 1`; a missing
      or repeated parameter is `None`. NaN and 0 are falsy and become 1. */
  function ParsePage(param: Option<string>): (page: int)
    ensures page >= 1
    ensures page == 1 <==> param.None? || ParseInt(param.value).None? || ParseInt(param.value).value <= 1
    ensures page > 1 ==> page == ParseInt(param.value).value
  {
    match param
    case None => 1
    case Some(s) =>
      var n := ParseInt(s);
      var m := if n.None? || n.value == 0 then 1 else n.value;
      if m < 1 then 1 else m
  }

  /** Digits followed by anything that is not a digit read as their value. */
  lemma {:induction false} LeadingDigitsOf(d: string, rest: string)
    requires forall i :: 0 <= i < |d| ==> IsDigit(d[i])
    requires rest == [] || !IsDigit(rest[0])
    ensures LeadingDigits(d + rest) == d
  {
    if d == [] {
      assert d + rest == rest;
    } else {
      assert (d + rest)[0] == d[0];
      assert (d + rest)[1..] == d[1..] + rest;
      LeadingDigitsOf(d[1..], rest);
      assert d == [d[0]] + d[1..];
    }
  }

  /** Text that starts with a digit parses as its leading digits. */
  lemma ParseIntUnsigned(s: string)
    requires s != [] && IsDigit(s[0])
    ensures LeadingDigits(s) != []
    ensures ParseInt(s) == Some(DigitsValue(LeadingDigits(s)) as int)
  {
    assert !IsSpace(s[0]);
    assert TrimStart(s) == s;
  }

  /** A minus sign and a digit parse as the negated leading digits. */
  lemma ParseIntMinus(s: string, v: int)
    requires |s| > 1 && s[0] == '-' && IsDigit(s[1])
    requires v == DigitsValue(LeadingDigits(s[1..]))
    ensures ParseInt(s) == Some(-v)
  {
    assert !IsSpace(s[0]);
    assert TrimStart(s) == s;
  }

  /** A printed number followed by text that does not begin with a digit parses back
      to that number: `parseInt` ignores what follows the digits. */
  lemma ParseIntOfNat(n: nat, rest: string)
    requires rest == [] || !IsDigit(rest[0])
    ensures ParseInt(NatToString(n) + rest) == Some(n)
  {
    var d := NatToString(n);
    var s := d + rest;
    assert s[0] == d[0];
    ParseIntUnsigned(s);
    LeadingDigitsOf(d, rest);
    NatToStringValue(n);
  }

  /** A minus sign before a printed number parses to its negation. */
  lemma ParseIntOfNegative(s: string, n: nat)
    requires s != [] && s[0] == '-' && s[1..] == NatToString(n)
    ensures ParseInt(s) == Some(-(n as int))
  {
    var d := NatToString(n);
    LeadingDigitsOf(d, []);
    assert d + [] == d;
    assert LeadingDigits(s[1..]) == d;
    NatToStringValue(n);
    ParseIntMinus(s, n);
  }

  /** The page number of a link parses back to that page. */
  lemma ParsePageRoundTrip(n: nat)
    requires n >= 1
    ensures ParsePage(Some(NatToString(n))) == n
  {
    ParseIntOfNat(n, []);
    assert NatToString(n) + [] == NatToString(n);
  }

  /** Zero, negative numbers and text without a leading number all give page 1. */
  lemma ParsePageFallsBackToOne(n: nat, s: string)
    requires var t := TrimStart(s); t == [] || !(IsDigit(t[0]) || t[0] == '-' || t[0] == '+')
    ensures ParsePage(Some(NatToString(0))) == 1
    ensures ParsePage(Some("-" + NatToString(n))) == 1
    ensures ParsePage(Some(s)) == 1
  {
    ParsePageRoundTrip(1);
    ParseIntOfNat(0, []);
    assert NatToString(0) + [] == NatToString(0);
    var negative := "-" + NatToString(n);
    assert negative[0] == '-' && negative[1..] == NatToString(n);
    ParseIntOfNegative(negative, n);
  }

  // ---------------------------------------------------------------- the slice shown

  /** `Math.max(1, Math.ceil(totalCount / PAGE_SIZE))`. */
  function TotalPages(totalCount: nat): (t: nat)
    ensures t >= 1
    ensures totalCount > 0 ==> (t - 1) * PageSize < totalCount <= t * PageSize
    ensures totalCount == 0 ==> t == 1
  {
    var c := (totalCount + PageSize - 1) / PageSize;
    if c < 1 then 1 else c
  }

  /** The pagination bar is rendered when there is more than one page. */
  predicate ShowsPagination(totalCount: nat) {
    TotalPages(totalCount) > 1
  }

  /** The bar appears exactly when there are more vendors than fit on one page. */
  lemma PaginationShownWhenOverflowing(totalCount: nat)
    ensures ShowsPagination(totalCount) <==> totalCount > PageSize
  {
  }

  /** `skip: (page - 1) * PAGE_SIZE`. */
  function Skip(page: int): (n: nat)
    requires page >= 1
    ensures n % PageSize == 0 && n / PageSize == page - 1
  {
    (page - 1) * PageSize
  }

  /** `findMany({ skip, take: PAGE_SIZE })` over the matching vendors in query order:
      at most a page of them, starting after the skipped ones. */
  function FetchPage<T>(rows: seq<T>, page: int): (r: seq<T>)
    requires page >= 1
    ensures |r| <= PageSize
    ensures forall i :: 0 <= i < |r| ==> Skip(page) + i < |rows| && r[i] == rows[Skip(page) + i]
  {
    var lo := if Skip(page) < |rows| then Skip(page) else |rows|;
    var hi := if Skip(page) + PageSize < |rows| then Skip(page) + PageSize else |rows|;
    rows[lo..hi]
  }

  /** The first number of "Showing a - b of n". */
  function RangeStart(page: int): int {
    (page - 1) * PageSize + 1
  }

  /** The second number: `Math.min(page * PAGE_SIZE, totalCount)`. */
  function RangeEnd(page: int, totalCount: nat): int {
    if page * PageSize < totalCount then page * PageSize else totalCount
  }

  /** On an existing page the "Showing" range counts exactly the fetched vendors, and
      its ends are their positions among all matching vendors. */
  lemma ShowingMatchesFetched<T>(rows: seq<T>, page: int)
    requires |rows| > 0 && 1 <= page <= TotalPages(|rows|)
    ensures 1 <= RangeStart(page) <= RangeEnd(page, |rows|) <= |rows|
    ensures |FetchPage(rows, page)| == RangeEnd(page, |rows|) - RangeStart(page) + 1
    ensures FetchPage(rows, page)[0] == rows[RangeStart(page) - 1]
    ensures FetchPage(rows, page)[|FetchPage(rows, page)| - 1] == rows[RangeEnd(page, |rows|) - 1]
  {
    assert (page - 1) * PageSize <= (TotalPages(|rows|) - 1) * PageSize;
  }

  /** Every vendor appears on exactly one page: vendor `i` is entry `i % 25` of page
      `i / 25 + 1`, and that page exists. */
  lemma EveryRowOnItsPage<T>(rows: seq<T>, i: int)
    requires 0 <= i < |rows|
    ensures 1 <= i / PageSize + 1 <= TotalPages(|rows|)
    ensures |FetchPage(rows, i / PageSize + 1)| > i % PageSize
    ensures FetchPage(rows, i / PageSize + 1)[i % PageSize] == rows[i]
  {
    var p := i / PageSize + 1;
    assert Skip(p) == i - i % PageSize;
    assert (p - 1) * PageSize <= i < |rows|;
  }

  /** A page past the last one fetches nothing, and its "Showing" range runs backwards. */
  lemma BeyondLastPage<T>(rows: seq<T>, page: int)
    requires page > TotalPages(|rows|)
    ensures FetchPage(rows, page) == []
    ensures RangeStart(page) > RangeEnd(page, |rows|)
  {
    assert TotalPages(|rows|) * PageSize >= |rows|;
    assert (page - 1) * PageSize >= TotalPages(|rows|) * PageSize;
  }

  /** "Previous" is a link exactly when `page > 1`. */
  predicate HasPrevious(page: int) {
    page > 1
  }

  /** "Next" is a link exactly when `page < totalPages`. */
  predicate HasNext(page: int, totalCount: nat) {
    page < TotalPages(totalCount)
  }

  /** On every existing page other than a lone first page at least one of the two
      links is active, and the last page has no "Next". */
  lemma PreviousOrNext(page: int, totalCount: nat)
    requires 1 <= page <= TotalPages(totalCount)
    ensures ShowsPagination(totalCount) ==> HasPrevious(page) || HasNext(page, totalCount)
    ensures !HasNext(TotalPages(totalCount), totalCount) && !HasPrevious(1)
  {
  }

  // ---------------------------------------------------------------- the page numbers

  /** The filter of the page list: the first page, the last page, and the pages within
      two of the current one. */
  predicate KeepPage(p: int, totalPages: int, page: int) {
    p == 1 || p == totalPages || -2 <= p - page <= 2
  }

  /** `Array.from({ length: n }, (_, i) => i + 1).filter(...)`. */
  function KeptUpTo(n: nat, totalPages: int, page: int): (r: seq<int>)
    ensures forall i, j :: 0 <= i < j < |r| ==> r[i] < r[j]
    ensures forall p :: p in r <==> 1 <= p <= n && KeepPage(p, totalPages, page)
    ensures r != [] ==> r[|r| - 1] <= n
  {
    if n == 0 then []
    else KeptUpTo(n - 1, totalPages, page) + (if KeepPage(n, totalPages, page) then [n] else [])
  }

  /** The pages that get a number button. */
  function KeptPages(totalPages: nat, page: int): (r: seq<int>) {
    KeptUpTo(totalPages, totalPages, page)
  }

  /** The page list is strictly ascending and holds exactly the first page, the last
      page and the pages within two of the current page. */
  lemma KeptPagesExact(totalPages: nat, page: int)
    requires totalPages >= 1
    ensures var r := KeptPages(totalPages, page);
      (forall i, j :: 0 <= i < j < |r| ==> r[i] < r[j])
      && (forall p :: p in r <==> 1 <= p <= totalPages && (p == 1 || p == totalPages || -2 <= p - page <= 2))
      && 1 in r && totalPages in r
      && (1 <= page <= totalPages ==> page in r)
  {
  }

  /** An entry of the page list: a page button or an ellipsis. */
  datatype PageItem = PageNumber(n: int) | Ellipsis

  /** The `reduce` over the kept pages: each page is pushed after an ellipsis when it is
      more than one past its predecessor. */
  function WithGaps(arr: seq<int>): (out: seq<PageItem>)
    ensures |out| >= |arr| && (out == [] <==> arr == [])
    ensures arr != [] ==> out[0] == PageNumber(arr[0]) && out[|out| - 1] == PageNumber(arr[|arr| - 1])
  {
    if arr == [] then []
    else
      var n := |arr| - 1;
      WithGaps(arr[..n]) + (if n > 0 && arr[n] - arr[n - 1] > 1 then [Ellipsis] else []) + [PageNumber(arr[n])]
  }

  /** The page numbers of the list, ellipses dropped. */
  function Numbers(items: seq<PageItem>): (r: seq<int>)
    ensures |r| <= |items|
  {
    if items == [] then []
    else
      var n := |items| - 1;
      Numbers(items[..n]) + (if items[n].PageNumber? then [items[n].n] else [])
  }

  lemma NumbersSnoc(items: seq<PageItem>, x: PageItem)
    ensures Numbers(items + [x]) == Numbers(items) + (if x.PageNumber? then [x.n] else [])
  {
    assert (items + [x])[..|items|] == items;
  }

  /** One step of the `reduce`: a page, with or without an ellipsis before it, adds
      just that page to the numbers. */
  lemma NumbersOfStep(front: seq<PageItem>, mid: seq<PageItem>, x: int)
    requires mid == [] || mid == [Ellipsis]
    ensures Numbers(front + mid + [PageNumber(x)]) == Numbers(front) + [x]
  {
    if mid == [] {
      assert front + mid == front;
    } else {
      NumbersSnoc(front, Ellipsis);
    }
    NumbersSnoc(front + mid, PageNumber(x));
  }

  /** The last step of `WithGaps`. */
  lemma WithGapsStep(arr: seq<int>)
    requires arr != []
    ensures var n := |arr| - 1;
      WithGaps(arr) == WithGaps(arr[..n]) + (if n > 0 && arr[n] - arr[n - 1] > 1 then [Ellipsis] else []) + [PageNumber(arr[n])]
  {
  }

  /** Dropping the ellipses gives back the kept pages. */
  lemma {:induction false} WithGapsNumbers(arr: seq<int>)
    ensures Numbers(WithGaps(arr)) == arr
  {
    if arr != [] {
      var n := |arr| - 1;
      WithGapsStep(arr);
      WithGapsNumbers(arr[..n]);
      NumbersOfStep(WithGaps(arr[..n]), if n > 0 && arr[n] - arr[n - 1] > 1 then [Ellipsis] else [], arr[n]);
      assert arr == arr[..n] + [arr[n]];
    }
  }

  /** Position `i` of a page list is well placed: an ellipsis stands between two page
      buttons more than one apart, and a button followed by a button is followed by
      the next page. */
  predicate GapAt(out: seq<PageItem>, i: int)
    requires 0 <= i < |out|
  {
    (out[i].Ellipsis? ==>
      0 < i < |out| - 1 && out[i - 1].PageNumber? && out[i + 1].PageNumber? && out[i + 1].n - out[i - 1].n > 1)
    && (i < |out| - 1 && out[i].PageNumber? && out[i + 1].PageNumber? ==> out[i + 1].n == out[i].n + 1)
  }

  /** Every position of the list is well placed. */
  predicate GapsExact(out: seq<PageItem>) {
    forall i :: 0 <= i < |out| ==> GapAt(out, i)
  }

  /** Appending the next page, after an ellipsis exactly when it skips pages, keeps a
      list ending in page `last` well placed. */
  lemma GapsExactSnoc(front: seq<PageItem>, last: int, x: int)
    requires front != [] && front[|front| - 1] == PageNumber(last) && last < x
    requires GapsExact(front)
    ensures var gap: seq<PageItem> := if x - last > 1 then [Ellipsis] else [];
      GapsExact(front + gap + [PageNumber(x)])
  {
    var gap: seq<PageItem> := if x - last > 1 then [Ellipsis] else [];
    var out := front + gap + [PageNumber(x)];
    forall i | 0 <= i < |out|
      ensures GapAt(out, i)
    {
      if i < |front| - 1 {
        assert GapAt(front, i);
        assert out[i] == front[i] && out[i + 1] == front[i + 1];
        if i > 0 {
          assert out[i - 1] == front[i - 1];
        }
      } else if i == |front| - 1 {
        assert out[i] == PageNumber(last);
        assert out[i + 1] == if gap != [] then Ellipsis else PageNumber(x);
      } else if i < |out| - 1 {
        assert gap != [] && i == |front| && out[i] == Ellipsis;
        assert out[i - 1] == PageNumber(last) && out[i + 1] == PageNumber(x);
      } else {
        assert out[i] == PageNumber(x);
      }
    }
  }

  /** Over a strictly ascending list, the ellipses fall exactly between neighbours that
      differ by more than one. */
  lemma {:induction false} WithGapsExact(arr: seq<int>)
    requires forall i, j :: 0 <= i < j < |arr| ==> arr[i] < arr[j]
    ensures GapsExact(WithGaps(arr))
  {
    if |arr| == 1 {
      assert WithGaps(arr) == [PageNumber(arr[0])];
    } else if |arr| > 1 {
      var n := |arr| - 1;
      WithGapsExact(arr[..n]);
      GapsExactSnoc(WithGaps(arr[..n]), arr[n - 1], arr[n]);
    }
  }

  /** The page list the bar renders, built as the `reduce` builds it. */
  method PageList(totalPages: nat, page: int) returns (items: seq<PageItem>)
    ensures items == WithGaps(KeptPages(totalPages, page))
  {
    var arr := KeptPages(totalPages, page);
    items := [];
    var idx := 0;
    while idx < |arr|
      invariant 0 <= idx <= |arr|
      invariant items == WithGaps(arr[..idx])
    {
      assert arr[..idx + 1][..idx] == arr[..idx];
      if idx > 0 && arr[idx] - arr[idx - 1] > 1 {
        items := items + [Ellipsis];
      }
      items := items + [PageNumber(arr[idx])];
      idx := idx + 1;
    }
    assert arr[..idx] == arr;
  }

  /** The rendered list: its buttons are exactly the kept pages, ascending, with an
      ellipsis exactly between buttons more than one page apart. */
  lemma PageListExact(totalPages: nat, page: int)
    requires totalPages >= 1
    ensures Numbers(WithGaps(KeptPages(totalPages, page))) == KeptPages(totalPages, page)
    ensures GapsExact(WithGaps(KeptPages(totalPages, page)))
  {
    WithGapsNumbers(KeptPages(totalPages, page));
    WithGapsExact(KeptPages(totalPages, page));
  }

  // ---------------------------------------------------------------- query strings

  /** The values the page reads from its query: `search` trimmed, the other filters as
      given, `order` limited to `asc` and `desc`. */
  datatype Filters = Filters(
    search: string,
    status: string,
    unionStatus: string,
    trade: string,
    mwlStatus: string,
    sort: string,
    order: string)

  /** The page's reading of its parameters; a missing or repeated one reads as "". */
  function ReadFilters(param: string -> Option<string>): (f: Filters)
    ensures f.order == "asc" || f.order == "desc"
    ensures f.order == "desc" <==> param("order") == Some("desc")
    ensures Trimmed(f.search)
  {
    var order := param("order");
    Filters(
      Trim(param("search").GetOr("")),
      param("status").GetOr(""),
      param("unionStatus").GetOr(""),
      param("trade").GetOr(""),
      param("mwlStatus").GetOr(""),
      param("sort").GetOr(""),
      if order == Some("desc") then "desc" else "asc")
  }

  /** Filters as the page can hold them. */
  predicate ValidFilters(f: Filters) {
    Trimmed(f.search) && (f.order == "asc" || f.order == "desc")
  }

  /** The seven names `buildQs` starts from, in its order, with their values. */
  function AllFilters(f: Filters): (ps: seq<Entry>)
    ensures |ps| == 7
  {
    [("search", f.search), ("status", f.status), ("unionStatus", f.unionStatus), ("trade", f.trade),
     ("mwlStatus", f.mwlStatus), ("sort", f.sort), ("order", f.order)]
  }

  /** The seven names are different. */
  lemma AllFiltersUnique(f: Filters)
    ensures UniqueKeys(AllFilters(f))
  {
    assert |"search"| == 6 && |"status"| == 6 && |"unionStatus"| == 11 && |"trade"| == 5;
    assert |"mwlStatus"| == 9 && |"sort"| == 4 && |"order"| == 5;
    assert "search"[1] == 'e' && "status"[1] == 't' && "trade"[0] == 't' && "order"[0] == 'o';
  }

  /** The pairs whose value is not empty, in order. */
  function NonEmpty(ps: seq<Entry>): (r: seq<Entry>)
    ensures |r| <= |ps|
  {
    if ps == [] then []
    else (if ps[0].1 != "" then [ps[0]] else []) + NonEmpty(ps[1..])
  }

  lemma NonEmptyCons(e: Entry, rest: seq<Entry>)
    ensures NonEmpty([e] + rest) == (if e.1 != "" then [e] else []) + NonEmpty(rest)
  {
    assert ([e] + rest)[1..] == rest;
  }

  lemma {:induction false} NonEmptyAppend(a: seq<Entry>, b: seq<Entry>)
    ensures NonEmpty(a + b) == NonEmpty(a) + NonEmpty(b)
  {
    if a == [] {
      assert a + b == b;
    } else {
      assert (a + b)[1..] == a[1..] + b;
      NonEmptyAppend(a[1..], b);
    }
  }

  /** A value read as absent when it is empty. */
  function NonBlank(v: Option<string>): (r: Option<string>)
    ensures r.None? <==> v.None? || v.value == ""
    ensures r.Some? ==> r == v
  {
    if v == Some("") then None else v
  }

  /** Over unique names, dropping the empty values makes exactly those read as absent,
      and the names stay unique. */
  lemma {:induction false} NonEmptyGet(ps: seq<Entry>, k: string)
    requires UniqueKeys(ps)
    ensures Get(NonEmpty(ps), k) == NonBlank(Get(ps, k))
    ensures UniqueKeys(NonEmpty(ps))
  {
    if ps != [] {
      var e, rest := ps[0], ps[1..];
      assert ps == [e] + rest;
      UniqueCons(e, rest);
      NonEmptyGet(rest, k);
      NonEmptyGet(rest, e.0);
      GetCons(e, rest, k);
      if e.1 != "" {
        GetCons(e, NonEmpty(rest), k);
        UniqueCons(e, NonEmpty(rest));
        assert NonEmpty(ps) == [e] + NonEmpty(rest);
      } else {
        assert NonEmpty(ps) == NonEmpty(rest);
      }
    }
  }

  /** `base`: the non-empty filters. */
  function Base(f: Filters): (ps: seq<Entry>) {
    NonEmpty(AllFilters(f))
  }

  /** `{ ...base, ...overrides }`: each override in turn replaces the value of a name
      already present, in place, or adds the name at the end. */
  function Spread(base: seq<Entry>, overrides: seq<Entry>): (ps: seq<Entry>) {
    if overrides == [] then base
    else
      var n := |overrides| - 1;
      Set(Spread(base, overrides[..n]), overrides[n].0, overrides[n].1)
  }

  /** With unique override names, a name reads as its override when there is one and as
      its base value otherwise; unique names stay unique. */
  lemma {:induction false} SpreadGet(base: seq<Entry>, overrides: seq<Entry>, k: string)
    requires UniqueKeys(base) && UniqueKeys(overrides)
    ensures Get(Spread(base, overrides), k) == if Get(overrides, k).Some? then Get(overrides, k) else Get(base, k)
    ensures UniqueKeys(Spread(base, overrides))
  {
    if overrides != [] {
      var n := |overrides| - 1;
      var front, e := overrides[..n], overrides[n];
      assert overrides == front + [e];
      SpreadGet(base, front, k);
      SetUnique(Spread(base, front), e.0, e.1);
      GetSet(Spread(base, front), e.0, e.1, k);
      GetAppend(front, [e], k);
      GetCons(e, [], k);
      if k == e.0 {
        assert Get(front, k).None? by {
          assert forall j :: 0 <= j < n ==> front[j] == overrides[j];
        }
      }
    }
  }

  /** The pairs `buildQs` encodes: base, overrides on top, empty values dropped. */
  function QueryPairs(f: Filters, overrides: seq<Entry>): (ps: seq<Entry>) {
    NonEmpty(Spread(Base(f), overrides))
  }

  /** `buildQs(overrides)`: "" when nothing remains, otherwise "?" and the query. */
  function QueryString(f: Filters, overrides: seq<Entry>, escape: string -> string): (qs: string) {
    var s := Encode(QueryPairs(f, overrides), escape);
    if s != "" then "?" + s else ""
  }

  /** The query string is empty exactly when no pair survives, and otherwise is "?"
      followed by the encoded pairs. */
  lemma QueryStringEmpty(f: Filters, overrides: seq<Entry>, escape: string -> string)
    ensures QueryString(f, overrides, escape) == "" <==> QueryPairs(f, overrides) == []
    ensures QueryPairs(f, overrides) != [] ==>
      QueryString(f, overrides, escape) == "?" + Encode(QueryPairs(f, overrides), escape)
  {
    EncodeEmpty(QueryPairs(f, overrides), escape);
  }

  /** Every name of a link reads as its non-empty override, else as its non-empty
      filter value, else as absent; the names stay unique. */
  lemma QueryPairsRead(f: Filters, overrides: seq<Entry>, k: string)
    requires UniqueKeys(overrides)
    ensures Get(QueryPairs(f, overrides), k)
         == NonBlank(if Get(overrides, k).Some? then Get(overrides, k) else Get(AllFilters(f), k))
    ensures UniqueKeys(QueryPairs(f, overrides))
  {
    AllFiltersUnique(f);
    NonEmptyGet(AllFilters(f), k);
    SpreadGet(Base(f), overrides, k);
    NonEmptyGet(Spread(Base(f), overrides), k);
  }

  /** A pair of a list with unique names, and the parts before and after it. */
  lemma SplitAt(merged: seq<Entry>, i: int)
    requires UniqueKeys(merged) && 0 <= i < |merged|
    ensures merged[i..] == [merged[i]] + merged[i + 1..]
    ensures merged[..i + 1] == merged[..i] + [merged[i]]
    ensures Get(merged[..i], merged[i].0).None? && Get(merged[i + 1..], merged[i].0).None?
    ensures UniqueKeys(merged[..i])
  {
    var a, b := merged[..i], merged[i + 1..];
    assert forall j :: 0 <= j < i ==> a[j] == merged[j];
    assert forall j :: 0 <= j < |b| ==> b[j] == merged[i + 1 + j];
  }

  /** The key of the pair at `i` reads as its value in the object the pass has
      reached. */
  lemma DropStepRead(merged: seq<Entry>, i: int)
    requires UniqueKeys(merged) && 0 <= i < |merged|
    ensures Get(NonEmpty(merged[..i]) + merged[i..], merged[i].0) == Some(merged[i].1)
  {
    var e, a, b := merged[i], merged[..i], merged[i + 1..];
    SplitAt(merged, i);
    NonEmptyGet(a, e.0);
    GetAppend(NonEmpty(a), [e] + b, e.0);
    GetCons(e, b, e.0);
  }

  /** Deleting the key of an empty pair at `i` drops exactly that pair. */
  lemma DropStepDelete(merged: seq<Entry>, i: int)
    requires UniqueKeys(merged) && 0 <= i < |merged| && merged[i].1 == ""
    ensures Delete(NonEmpty(merged[..i]) + merged[i..], merged[i].0) == NonEmpty(merged[..i + 1]) + merged[i + 1..]
  {
    var e, a, b := merged[i], merged[..i], merged[i + 1..];
    SplitAt(merged, i);
    NonEmptyGet(a, e.0);
    NonEmptyPrefix(merged, i);
    DeleteAppend(NonEmpty(a), [e] + b, e.0);
    DeleteAbsent(NonEmpty(a), e.0);
    DeleteCons(e, b, e.0);
    DeleteAbsent(b, e.0);
  }

  /** One step of the pass over the keys: the key reads as its original value, and
      deleting it exactly when that value is empty moves the pass one pair on. */
  lemma DropStep(merged: seq<Entry>, i: int)
    requires UniqueKeys(merged) && 0 <= i < |merged|
    ensures var m, e := NonEmpty(merged[..i]) + merged[i..], merged[i];
      Get(m, e.0) == Some(e.1)
      && (e.1 == "" ==> Delete(m, e.0) == NonEmpty(merged[..i + 1]) + merged[i + 1..])
      && (e.1 != "" ==> m == NonEmpty(merged[..i + 1]) + merged[i + 1..])
  {
    DropStepRead(merged, i);
    if merged[i].1 == "" {
      DropStepDelete(merged, i);
    } else {
      SplitAt(merged, i);
      NonEmptyPrefix(merged, i);
      var na := NonEmpty(merged[..i]);
      assert na + ([merged[i]] + merged[i + 1..]) == (na + [merged[i]]) + merged[i + 1..];
    }
  }

  /** `if (value) base[key] = value`: one link of the chain. */
  function Add(base: seq<Entry>, e: Entry): (r: seq<Entry>)
    ensures e.1 != "" ==> r == base + [e]
    ensures e.1 == "" ==> r == base
  {
    if e.1 != "" then base + [e] else base
  }

  /** The first four links of the chain: `search`, `status`, `unionStatus`, `trade`. */
  function FirstFour(f: Filters): (ps: seq<Entry>) {
    Add(Add(Add(Add([], ("search", f.search)), ("status", f.status)), ("unionStatus", f.unionStatus)), ("trade", f.trade))
  }

  /** The whole chain, ending with `mwlStatus`, `sort` and `order`. */
  function Chain(f: Filters): (ps: seq<Entry>) {
    Add(Add(Add(FirstFour(f), ("mwlStatus", f.mwlStatus)), ("sort", f.sort)), ("order", f.order))
  }

  lemma FirstFourNonEmpty(f: Filters)
    ensures FirstFour(f) == NonEmpty(AllFilters(f)[..4])
  {
    var all := AllFilters(f);
    assert all[..0] == [];
    var b1 := Add([], ("search", f.search));
    AddStep(all, 0, [], b1);
    var b2 := Add(b1, ("status", f.status));
    AddStep(all, 1, b1, b2);
    var b3 := Add(b2, ("unionStatus", f.unionStatus));
    AddStep(all, 2, b2, b3);
    AddStep(all, 3, b3, FirstFour(f));
  }

  /** The chain keeps exactly the non-empty filters, in order. */
  lemma ChainNonEmpty(f: Filters)
    ensures Chain(f) == Base(f)
  {
    var all := AllFilters(f);
    FirstFourNonEmpty(f);
    var b5 := Add(FirstFour(f), ("mwlStatus", f.mwlStatus));
    AddStep(all, 4, FirstFour(f), b5);
    var b6 := Add(b5, ("sort", f.sort));
    AddStep(all, 5, b5, b6);
    AddStep(all, 6, b6, Chain(f));
    assert all[..7] == all;
  }

  /** The `if (search) base.search = search; ...` chain: the non-empty filters, in
      the order of the chain. */
  method CollectBase(f: Filters) returns (base: seq<Entry>)
    ensures base == Base(f)
  {
    base := [];
    if f.search != "" { base := base + [("search", f.search)]; }
    if f.status != "" { base := base + [("status", f.status)]; }
    if f.unionStatus != "" { base := base + [("unionStatus", f.unionStatus)]; }
    if f.trade != "" { base := base + [("trade", f.trade)]; }
    assert base == FirstFour(f);
    if f.mwlStatus != "" { base := base + [("mwlStatus", f.mwlStatus)]; }
    if f.sort != "" { base := base + [("sort", f.sort)]; }
    if f.order != "" { base := base + [("order", f.order)]; }
    assert base == Chain(f);
    ChainNonEmpty(f);
  }

  /** `Object.keys(merged).forEach((k) => { if (!merged[k]) delete merged[k]; })`: one
      pass over the keys, each read from the object as it is at that point. */
  method DropEmptyValues(merged: seq<Entry>) returns (m: seq<Entry>)
    requires UniqueKeys(merged)
    ensures m == NonEmpty(merged)
  {
    m := merged;
    var i := 0;
    while i < |merged|
      invariant 0 <= i <= |merged|
      invariant m == NonEmpty(merged[..i]) + merged[i..]
    {
      var k := merged[i].0;
      DropStep(merged, i);
      if Get(m, k) == Some("") {
        m := Delete(m, k);
      }
      i := i + 1;
    }
    assert merged[..i] == merged && merged[i..] == [];
  }

  /** `buildQs`: collects the non-empty filters, spreads the overrides on top, deletes
      every empty value, and encodes what is left. */
  method BuildQs(f: Filters, overrides: seq<Entry>, escape: string -> string) returns (qs: string)
    requires UniqueKeys(overrides)
    ensures qs == QueryString(f, overrides, escape)
  {
    var base := CollectBase(f);
    AllFiltersUnique(f);
    NonEmptyGet(AllFilters(f), "");
    SpreadGet(base, overrides, "");
    var merged := Spread(base, overrides);
    var m := DropEmptyValues(merged);
    var s := Encode(m, escape);
    qs := if s != "" then "?" + s else "";
  }

  /** One step of the chain: adding the pair at `k` when its value is not empty keeps
      `base` the non-empty part of the prefix. */
  lemma AddStep(ps: seq<Entry>, k: int, before: seq<Entry>, after: seq<Entry>)
    requires 0 <= k < |ps| && before == NonEmpty(ps[..k])
    requires after == if ps[k].1 != "" then before + [ps[k]] else before
    ensures after == NonEmpty(ps[..k + 1])
  {
    NonEmptyPrefix(ps, k);
  }

  /** Extending a prefix by one pair extends its non-empty pairs by that pair when
      its value is not empty. */
  lemma NonEmptyPrefix(ps: seq<Entry>, k: int)
    requires 0 <= k < |ps|
    ensures ps[k].1 != "" ==> NonEmpty(ps[..k + 1]) == NonEmpty(ps[..k]) + [ps[k]]
    ensures ps[k].1 == "" ==> NonEmpty(ps[..k + 1]) == NonEmpty(ps[..k])
  {
    assert ps[..k + 1] == ps[..k] + [ps[k]];
    NonEmptyAppend(ps[..k], [ps[k]]);
    NonEmptyCons(ps[k], []);
    assert [ps[k]] + [] == [ps[k]];
  }

  /** The link to page `p`: `` `/vendors${buildQs({ page: String(p) })}` ``. */
  function PageHref(f: Filters, p: nat, escape: string -> string): (url: string) {
    "/vendors" + QueryString(f, [("page", NatToString(p))], escape)
  }

  /** The pairs of the link to page `p`. */
  function PageQuery(f: Filters, p: nat): (ps: seq<Entry>) {
    QueryPairs(f, [("page", NatToString(p))])
  }

  /** A link's pairs: `page` reads as the page number, every other name as its
      non-empty filter value. */
  lemma PageQueryRead(f: Filters, p: nat, k: string)
    ensures Get(PageQuery(f, p), k) == NonBlank(if k == "page" then Some(NatToString(p)) else Get(AllFilters(f), k))
  {
    var ov := [("page", NatToString(p))];
    UniqueCons(ov[0], []);
    assert ov == [ov[0]] + [];
    QueryPairsRead(f, ov, k);
    GetCons(ov[0], [], k);
  }

  /** Each filter of the list reads as its field. */
  lemma AllFiltersRead(f: Filters)
    ensures Get(AllFilters(f), "search") == Some(f.search)
    ensures Get(AllFilters(f), "status") == Some(f.status)
    ensures Get(AllFilters(f), "unionStatus") == Some(f.unionStatus)
    ensures Get(AllFilters(f), "trade") == Some(f.trade)
    ensures Get(AllFilters(f), "mwlStatus") == Some(f.mwlStatus)
    ensures Get(AllFilters(f), "sort") == Some(f.sort)
    ensures Get(AllFilters(f), "order") == Some(f.order)
  {
    var all := AllFilters(f);
    AllFiltersUnique(f);
    GetUniqueAt(all, 0);
    GetUniqueAt(all, 1);
    GetUniqueAt(all, 2);
    GetUniqueAt(all, 3);
    GetUniqueAt(all, 4);
    GetUniqueAt(all, 5);
    GetUniqueAt(all, 6);
  }

  /** A filter name reads the same on a page link; an empty filter reads as absent. */
  lemma PageQueryFilter(f: Filters, p: nat, k: string, v: string)
    requires k != "page" && Get(AllFilters(f), k) == Some(v)
    ensures Get(PageQuery(f, p), k).GetOr("") == v
  {
    PageQueryRead(f, p, k);
  }

  /** Reading the parameters gives back valid filters when each name reads as the
      corresponding field (an empty field may read as absent). */
  lemma ReadFiltersOf(param: string -> Option<string>, f: Filters)
    requires ValidFilters(f)
    requires param("search").GetOr("") == f.search && param("status").GetOr("") == f.status
    requires param("unionStatus").GetOr("") == f.unionStatus && param("trade").GetOr("") == f.trade
    requires param("mwlStatus").GetOr("") == f.mwlStatus && param("sort").GetOr("") == f.sort
    requires param("order") == Some(f.order)
    ensures ReadFilters(param) == f
  {
    TrimOfTrimmed(f.search);
    assert |"asc"| == 3 && |"desc"| == 4;
  }

  /** On a page link each filter reads as its field. */
  lemma PageQueryFilters(f: Filters, p: nat)
    requires ValidFilters(f)
    ensures var q := PageQuery(f, p);
      Get(q, "search").GetOr("") == f.search && Get(q, "status").GetOr("") == f.status
      && Get(q, "unionStatus").GetOr("") == f.unionStatus && Get(q, "trade").GetOr("") == f.trade
      && Get(q, "mwlStatus").GetOr("") == f.mwlStatus && Get(q, "sort").GetOr("") == f.sort
      && Get(q, "order") == Some(f.order)
  {
    AllFiltersRead(f);
    assert "page"[0] == 'p' && "search"[0] == 's' && "status"[0] == 's' && "unionStatus"[0] == 'u';
    assert "trade"[0] == 't' && "mwlStatus"[0] == 'm' && "sort"[0] == 's' && "order"[0] == 'o';
    PageQueryFilter(f, p, "search", f.search);
    PageQueryFilter(f, p, "status", f.status);
    PageQueryFilter(f, p, "unionStatus", f.unionStatus);
    PageQueryFilter(f, p, "trade", f.trade);
    PageQueryFilter(f, p, "mwlStatus", f.mwlStatus);
    PageQueryFilter(f, p, "sort", f.sort);
    PageQueryRead(f, p, "order");
  }

  /** Following a page link keeps the filters, the sort and the order: reading the
      link's query gives back the filters it was built from. */
  lemma PageLinkKeepsFilters(f: Filters, p: nat)
    requires ValidFilters(f)
    ensures ReadFilters(k => Get(PageQuery(f, p), k)) == f
  {
    var q := PageQuery(f, p);
    PageQueryFilters(f, p);
    ReadFiltersOf(k => Get(q, k), f);
  }

  /** Following the link to page `p` lands on page `p`. */
  lemma PageLinkLandsOnPage(f: Filters, p: nat)
    requires p >= 1
    ensures ParsePage(Get(PageQuery(f, p), "page")) == p
  {
    PageQueryRead(f, p, "page");
    ParsePageRoundTrip(p);
  }

  /** Every link of the bar carries its page, so its query string is never empty. */
  lemma PageHrefHasQuery(f: Filters, p: nat, escape: string -> string)
    ensures QueryPairs(f, [("page", NatToString(p))]) != []
    ensures PageHref(f, p, escape)[..9] == "/vendors?"
  {
    var ov := [("page", NatToString(p))];
    UniqueCons(ov[0], []);
    assert ov == [ov[0]] + [];
    QueryPairsRead(f, ov, "page");
    GetCons(ov[0], [], "page");
    QueryStringEmpty(f, ov, escape);
  }

  // ---------------------------------------------------------------- a row

  /** `getInitials`: the first two characters of a single word, otherwise the first
      letters of the first and the second word, upper-cased. */
  function GetInitials(name: string): (r: string)
    ensures |r| <= 2
  {
    var t := Trim(name);
    var words := Fields(t);
    if |words| == 1 then Upper(words[0][..if |words[0]| < 2 then |words[0]| else 2])
    else
      SecondWordNonEmpty(t);
      Upper([words[0][0], words[1][0]])
  }

  /** The first two words of a trimmed text of several words are not empty. */
  lemma SecondWordNonEmpty(t: string)
    requires Trimmed(t) && |Fields(t)| > 1
    ensures Fields(t)[0] != [] && Fields(t)[1] != []
  {
    assert t != [] by {
      assert Fields([]) == [[]];
    }
    FieldsOfTrimmed(t);
  }

  /** The initials of a name whose first two words are not empty. */
  lemma InitialsOfNonEmptyWords(name: string, words: seq<string>)
    requires words == Fields(Trim(name)) && |words| > 1
    requires words[0] != [] && words[1] != []
    ensures GetInitials(name) == [UpperChar(words[0][0]), UpperChar(words[1][0])]
  {
    assert GetInitials(name) == Upper([words[0][0], words[1][0]]);
    UpperPair(words[0][0], words[1][0]);
  }

  /** A name of several words gives the initials of its first two words; a third word
      plays no part. */
  lemma InitialsOfTwoWords(name: string, words: seq<string>)
    requires words == Fields(Trim(name)) && |words| > 1
    ensures words[0] != [] && words[1] != []
    ensures GetInitials(name) == [UpperChar(words[0][0]), UpperChar(words[1][0])]
  {
    SecondWordNonEmpty(Trim(name));
    InitialsOfNonEmptyWords(name, words);
  }

  /** A name without inner whitespace gives its first (at most) two characters. */
  lemma InitialsOfOneWord(name: string)
    requires Trim(name) != [] && NoSpace(Trim(name))
    ensures var t := Trim(name);
      GetInitials(name) == Upper(t[..if |t| < 2 then |t| else 2])
  {
    SingleField(Trim(name));
    assert Fields(Trim(name)) == [Trim(name)];
  }

  /** The avatar palette: a background and a text colour per entry. */
  const AvatarPalette: seq<(string, string)> := [
    ("#F4F5FA", "#7367F0"), ("#E8FAF0", "#28C76F"), ("#FFF0F0", "#EA5455"),
    ("#E7F4FF", "#00A3FF"), ("#FFF6E5", "#FDB528"), ("#FEF0F5", "#FF7FAA")]

  /** `name.charCodeAt(0) % colors.length`; an empty name has no first code (NaN). */
  function AvatarIndex(name: string): (r: Option<nat>)
    ensures r.None? <==> name == []
    ensures r.Some? ==> r.value < |AvatarPalette| && r.value == name[0] as int % 6
  {
    if name == [] then None else Some(name[0] as int % |AvatarPalette|)
  }

  /** `getAvatarColor`; an empty name reads `colors[NaN].bg` and fails. */
  function AvatarColor(name: string): (bg: Option<string>) {
    var i := AvatarIndex(name);
    if i.None? then None else Some(AvatarPalette[i.value].0)
  }

  /** `getAvatarTextColor`, with its own copy of the palette. */
  function AvatarTextColor(name: string): (text: Option<string>) {
    var i := AvatarIndex(name);
    if i.None? then None else Some(AvatarPalette[i.value].1)
  }

  /** The two colour functions pick the same palette entry: two names share a
      background exactly when they share a text colour, and the pair is an entry of
      the palette. */
  lemma AvatarColorsAgree(a: string, b: string)
    requires a != [] && b != []
    ensures (AvatarColor(a).value, AvatarTextColor(a).value) in AvatarPalette
    ensures AvatarColor(a) == AvatarColor(b) <==> AvatarTextColor(a) == AvatarTextColor(b)
    ensures AvatarColor(a) == AvatarColor(b) <==> a[0] as int % 6 == b[0] as int % 6
  {
    var p := AvatarPalette;
    assert p[0].0[2] == '4' && p[1].0[2] == '8' && p[2].0[2] == 'F' && p[3].0[2] == '7';
    assert p[4].0[2] == 'F' && p[5].0[2] == 'E' && p[2].0[4] == '0' && p[4].0[4] == '6';
    assert p[0].1[1] == '7' && p[1].1[1] == '2' && p[2].1[1] == 'E' && p[3].1[1] == '0';
    assert p[4].1[1] == 'F' && p[5].1[1] == 'F' && p[4].1[2] == 'D' && p[5].1[2] == 'F';
  }

  /** The colours of a vendor status chip. */
  datatype ChipStyle = ChipStyle(bgcolor: string, color: string)

  /** `statusChipProps[status] ?? statusChipProps.inactive`. */
  function StatusChipStyle(status: string): (s: ChipStyle) {
    if status == "active" then ChipStyle("#E8FAF0", "#28C76F")
    else if status == "suspended" then ChipStyle("#FFF0F0", "#EA5455")
    else ChipStyle("#FFF6E5", "#FDB528")
  }

  /** The three known statuses have three different styles, and every other status is
      styled as `inactive`. */
  lemma StatusChipStyles(status: string)
    ensures StatusChipStyle(status) == StatusChipStyle("inactive") <==> status != "active" && status != "suspended"
    ensures StatusChipStyle("active") != StatusChipStyle("suspended")
  {
    assert "#FFF6E5"[4] == '6' && "#E8FAF0"[1] == 'E' && "#FFF0F0"[4] == '0';
  }

  /** `status.charAt(0).toUpperCase() + status.slice(1)`. */
  function StatusChipLabel(status: string): (label_: string)
    ensures |label_| == |status|
    ensures status != [] ==> label_[0] == UpperChar(status[0]) && label_[1..] == status[1..]
  {
    Capitalize(status)
  }
}
