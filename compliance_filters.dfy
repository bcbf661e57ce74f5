/**
 * `ComplianceFilters`: the filter bar of the compliance pages. It reads three
 * parameters, rewrites one of them on a change, and clears them all.
 */
module ComplianceFilters {
  import opened Common
  import opened QueryParams

  /** Where every navigation of the filter bar goes. */
  const CompliancePath: string := "/compliance"

  /** `searchParams.get(key) || ''`. */
  function ReadParam(current: seq<Entry>, key: string): (v: string)
    ensures Get(current, key).None? ==> v == ""
    ensures Get(current, key).Some? ==> v == Get(current, key).value
  {
    Get(current, key).GetOr("")
  }

  /** `hasFilters`: one of the three filters holds a value. */
  predicate HasFilters(current: seq<Entry>) {
    ReadParam(current, "insuranceStatus") != "" || ReadParam(current, "complianceStatus") != ""
    || ReadParam(current, "search") != ""
  }

  /** The parameters after one filter changes: a non-empty value is set exactly as
      given (not trimmed), an empty one removes the key; nothing else is touched,
      `page` included. */
  function ChangeQuery(current: seq<Entry>, key: string, value: string): (ps: seq<Entry>) {
    if value != "" then Set(current, key, value) else Delete(current, key)
  }

  /** `handleFilterChange`. */
  method HandleFilterChange(current: seq<Entry>, key: string, value: string, escape: string -> string)
    returns (url: string)
    ensures url == Href(CompliancePath, ChangeQuery(current, key, value), escape)
  {
    var params := new SearchParams(current);
    if value != "" {
      params.SetValue(key, value);
    } else {
      params.DeleteKey(key);
    }
    url := CompliancePath + "?" + params.ToString(escape);
  }

  /** `handleClearFilters`: the bare path, with no parameters at all. */
  function HandleClearFilters(): (url: string)
    ensures url == CompliancePath && '?' !in url
  {
    "/compliance"
  }

  /** After a change the key reads as the untrimmed value (or absent for ""), and every
      other parameter, `page` included, reads as before. */
  lemma ChangeQueryReads(current: seq<Entry>, key: string, value: string, k: string)
    ensures ReadParam(ChangeQuery(current, key, value), key) == value
    ensures Get(ChangeQuery(current, key, value), key) == if value != "" then Some(value) else None
    ensures k != key ==> Get(ChangeQuery(current, key, value), k) == Get(current, k)
  {
    if value != "" {
      GetSet(current, key, value, key);
      GetSet(current, key, value, k);
    } else {
      GetDelete(current, key, key);
      GetDelete(current, key, k);
    }
  }

  /** Clearing leaves no filter; setting a non-empty filter always leaves one. */
  lemma ClearAndSet(current: seq<Entry>, value: string)
    ensures !HasFilters([])
    ensures value != "" ==> HasFilters(ChangeQuery(current, "search", value))
  {
    if value != "" {
      GetSet(current, "search", value, "search");
    }
  }

  /** Emptying the one filter in use leaves no filter. */
  lemma EmptyingLastFilter(current: seq<Entry>, key: string)
    requires key == "insuranceStatus" || key == "complianceStatus" || key == "search"
    requires key != "insuranceStatus" ==> ReadParam(current, "insuranceStatus") == ""
    requires key != "complianceStatus" ==> ReadParam(current, "complianceStatus") == ""
    requires key != "search" ==> ReadParam(current, "search") == ""
    ensures !HasFilters(ChangeQuery(current, key, ""))
  {
    GetDelete(current, key, "insuranceStatus");
    GetDelete(current, key, "complianceStatus");
    GetDelete(current, key, "search");
  }
}
