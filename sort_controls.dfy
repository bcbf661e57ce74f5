/**
 * The sort controls shared by the list pages and both table header cells: the
 * `order` parameter, whether a column is the active sort, the order a click asks
 * for, the direction of the sort arrow, and the link that carries the new sort.
 */
module SortControls {
  import opened Common
  import opened QueryParams

  datatype SortOrder = Asc | Desc

  function OrderText(o: SortOrder): (s: string)
    ensures s == "asc" || s == "desc"
  {
    match o
    case Asc => "asc"
    case Desc => "desc"
  }

  /** The `order` parameter of the compliance and vendors pages: exactly `"desc"`
      sorts descending; anything else, including no parameter, sorts ascending. */
  function ParseOrder(param: Option<string>): (o: SortOrder)
    ensures o == Desc <==> param == Some("desc")
  {
    if param == Some("desc") then Desc else Asc
  }

  /** `isActive`: the column is the current sort (two absent keys compare equal). */
  predicate IsActive(currentSort: Option<string>, sortKey: Option<string>) {
    currentSort == sortKey
  }

  /** `nextOrder`: the order a click on the column asks for. */
  function NextOrder(active: bool, currentOrder: SortOrder): (r: SortOrder)
    ensures r == Desc <==> active && currentOrder == Asc
  {
    if active && currentOrder == Asc then Desc else Asc
  }

  /** The arrow of the sort label: the current order on the active column, `asc` elsewhere. */
  function Direction(active: bool, currentOrder: SortOrder): (r: SortOrder)
    ensures active ==> r == currentOrder
    ensures !active ==> r == Asc
  {
    if active then currentOrder else Asc
  }

  /** The parameters of the sort link: `sort` and `order` set on the current ones. */
  function SortQuery(current: seq<Entry>, sortKey: string, next: SortOrder): (ps: seq<Entry>) {
    Set(Set(current, "sort", sortKey), "order", OrderText(next))
  }

  /** `buildHref` / `buildSortUrl`: copy the current parameters, set `sort` and
      `order`, and append the query to the path. */
  method BuildSortUrl(pathname: string, current: seq<Entry>, sortKey: string, next: SortOrder,
                      escape: string -> string)
    returns (url: string)
    ensures url == Href(pathname, SortQuery(current, sortKey, next), escape)
  {
    var params := new SearchParams(current);
    params.SetValue("sort", sortKey);
    params.SetValue("order", OrderText(next));
    url := pathname + "?" + params.ToString(escape);
  }

  /** The sort link reads `sort` as the column's key and `order` as the next order,
      and every other parameter reads as before. */
  lemma SortQueryReads(current: seq<Entry>, sortKey: string, next: SortOrder, k: string)
    ensures Get(SortQuery(current, sortKey, next), "sort") == Some(sortKey)
    ensures Get(SortQuery(current, sortKey, next), "order") == Some(OrderText(next))
    ensures k != "sort" && k != "order" ==> Get(SortQuery(current, sortKey, next), k) == Get(current, k)
  {
    var once := Set(current, "sort", sortKey);
    GetSet(once, "order", OrderText(next), "sort");
    GetSet(current, "sort", sortKey, "sort");
    GetSet(once, "order", OrderText(next), "order");
    GetSet(once, "order", OrderText(next), k);
    GetSet(current, "sort", sortKey, k);
  }

  /** Apart from `sort` and `order`, the sort link keeps every parameter pair, in order. */
  lemma SortQueryKeepsOthers(current: seq<Entry>, sortKey: string, next: SortOrder)
    ensures Delete(Delete(SortQuery(current, sortKey, next), "order"), "sort")
         == Delete(Delete(current, "order"), "sort")
  {
    var once := Set(current, "sort", sortKey);
    DeleteSet(once, "order", OrderText(next));
    DeleteAfterSet(current, "sort", sortKey, "order");
    DeleteSet(Delete(current, "order"), "sort", sortKey);
  }

  /** Repeated clicks on one column: an inactive column first sorts ascending, and
      on the active column each click flips the order. */
  lemma ClicksAlternate(currentOrder: SortOrder)
    ensures NextOrder(false, currentOrder) == Asc
    ensures NextOrder(true, currentOrder) != currentOrder
    ensures NextOrder(true, NextOrder(true, currentOrder)) == currentOrder
  {
  }
}
