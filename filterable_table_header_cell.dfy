/**
 * `FilterableTableHeaderCell`: a column header with an optional sort label and
 * an optional inline filter. The component keeps the text of its filter box in
 * its own state; sorting and filtering navigate to a rewritten query string.
 */
module FilterableTableHeaderCell {
  import opened Common
  import opened Text
  import opened QueryParams
  import opened SortControls

  /** The parameters after the filter box changes to `value`: a value that is not blank
      sets the filter key to its trimmed form, a blank one removes the key, and in
      both cases `page` is removed so the list restarts at page 1. */
  function FilterQuery(current: seq<Entry>, filterKey: string, value: string): (ps: seq<Entry>) {
    var t := Trim(value);
    Delete(if t != "" then Set(current, filterKey, t) else Delete(current, filterKey), "page")
  }

  /** The parameters after the clear button: the filter key and `page` are removed. */
  function ClearQuery(current: seq<Entry>, filterKey: string): (ps: seq<Entry>) {
    Delete(Delete(current, filterKey), "page")
  }

  /** `handleSortClick`: the sort link a sortable column navigates to; a column
      without a sort key ignores the click. */
  function SortClick(sortKey: Option<string>, currentSort: Option<string>, currentOrder: SortOrder,
                     pathname: string, current: seq<Entry>, escape: string -> string): (r: Option<string>)
    ensures r.None? <==> !Truthy(sortKey)
    ensures r.Some? ==> r.value == Href(pathname,
              SortQuery(current, sortKey.value, NextOrder(currentSort == sortKey, currentOrder)), escape)
  {
    if Truthy(sortKey) then
      Some(Href(pathname, SortQuery(current, sortKey.value, NextOrder(IsActive(currentSort, sortKey), currentOrder)), escape))
    else None
  }

  /** One mounted header cell and the text in its filter box. */
  class FilterCell {
    var filterValue: string

    constructor ()
      ensures filterValue == ""
    {
      filterValue := "";
    }

    /** The effect that fills the box from the URL: the parameter's value, or ""
        when it is absent; a cell without a filter key keeps its text. */
    method LoadFilter(current: seq<Entry>, filterKey: Option<string>)
      modifies this
      ensures Truthy(filterKey) ==> filterValue == Get(current, filterKey.value).GetOr("")
      ensures !Truthy(filterKey) ==> filterValue == old(filterValue)
    {
      if Truthy(filterKey) {
        var v := Get(current, filterKey.value);
        filterValue := if v.Some? && v.value != "" then v.value else "";
      }
    }

    /** `handleFilterChange`: the box keeps the typed text as it is, and the
        navigation carries its trimmed form. */
    method HandleFilterChange(value: string, current: seq<Entry>, pathname: string, filterKey: string,
                              escape: string -> string)
      returns (url: string)
      modifies this
      ensures filterValue == value
      ensures url == Href(pathname, FilterQuery(current, filterKey, value), escape)
    {
      filterValue := value;
      var params := new SearchParams(current);
      var t := Trim(value);
      if t != "" {
        params.SetValue(filterKey, t);
      } else {
        params.DeleteKey(filterKey);
      }
      params.DeleteKey("page");
      url := pathname + "?" + params.ToString(escape);
    }

    /** `handleClearFilter`: the box is emptied and the navigation drops the filter. */
    method HandleClearFilter(current: seq<Entry>, pathname: string, filterKey: string,
                             escape: string -> string)
      returns (url: string)
      modifies this
      ensures filterValue == ""
      ensures url == Href(pathname, ClearQuery(current, filterKey), escape)
    {
      filterValue := "";
      var params := new SearchParams(current);
      params.DeleteKey(filterKey);
      params.DeleteKey("page");
      url := pathname + "?" + params.ToString(escape);
    }

    /** The clear button is shown exactly when the box holds text. */
    predicate ShowsClearButton()
      reads this
    {
      filterValue != ""
    }
  }

  // ---------------------------------------------------------------- what a filter change does

  /** After a filter change `page` is gone, the filter key holds the trimmed value (or
      nothing for a blank value), and every other parameter reads as before. */
  lemma FilterQueryReads(current: seq<Entry>, filterKey: string, value: string, k: string)
    requires filterKey != "page"
    ensures Get(FilterQuery(current, filterKey, value), "page") == None
    ensures Get(FilterQuery(current, filterKey, value), filterKey)
         == if Trim(value) != "" then Some(Trim(value)) else None
    ensures k != filterKey && k != "page" ==> Get(FilterQuery(current, filterKey, value), k) == Get(current, k)
  {
    var t := Trim(value);
    var mid := if t != "" then Set(current, filterKey, t) else Delete(current, filterKey);
    GetDelete(mid, "page", "page");
    GetDelete(mid, "page", filterKey);
    GetDelete(mid, "page", k);
    if t != "" {
      GetSet(current, filterKey, t, filterKey);
      GetSet(current, filterKey, t, k);
    } else {
      GetDelete(current, filterKey, filterKey);
      GetDelete(current, filterKey, k);
    }
  }

  /** A filter change leaves every pair other than the filter key and `page` in place,
      in order. */
  lemma FilterQueryKeepsOthers(current: seq<Entry>, filterKey: string, value: string)
    ensures Delete(Delete(FilterQuery(current, filterKey, value), filterKey), "page")
         == Delete(Delete(current, filterKey), "page")
  {
    var t := Trim(value);
    if t != "" {
      DeleteSet(current, filterKey, t);
    } else {
      DeleteIdempotent(current, filterKey);
    }
    var mid := if t != "" then Set(current, filterKey, t) else Delete(current, filterKey);
    DeleteCommutes(mid, "page", filterKey);
    DeleteIdempotent(Delete(mid, filterKey), "page");
  }

  /** Typing only whitespace is the same navigation as pressing clear. */
  lemma BlankIsClear(current: seq<Entry>, filterKey: string, value: string)
    requires Trim(value) == ""
    ensures FilterQuery(current, filterKey, value) == ClearQuery(current, filterKey)
  {
  }

  /** Clearing removes the filter key and `page` and nothing else. */
  lemma ClearQueryReads(current: seq<Entry>, filterKey: string, k: string)
    ensures Get(ClearQuery(current, filterKey), filterKey) == None
    ensures Get(ClearQuery(current, filterKey), "page") == None
    ensures k != filterKey && k != "page" ==> Get(ClearQuery(current, filterKey), k) == Get(current, k)
  {
    var mid := Delete(current, filterKey);
    GetDelete(mid, "page", filterKey);
    GetDelete(mid, "page", "page");
    GetDelete(mid, "page", k);
    GetDelete(current, filterKey, filterKey);
    GetDelete(current, filterKey, k);
  }
}
