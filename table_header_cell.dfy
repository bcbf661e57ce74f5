/**
 * `TableHeaderCell`: a column header that is plain text, or, when it has a sort
 * key, a link that re-sorts the table by that column and keeps the other
 * query parameters.
 */
module TableHeaderCell {
  import opened Common
  import opened QueryParams
  import opened SortControls

  /** What the cell renders: its content, and for a sortable column the link,
      whether the column is the active sort, and the arrow direction. */
  datatype Cell =
    | PlainCell(content: Option<string>)
    | SortCell(content: Option<string>, href: string, active: bool, direction: SortOrder)

  /** `displayLabel = label || children`: a non-empty label, otherwise the children. */
  function DisplayLabel(labelText: Option<string>, children: Option<string>): (r: Option<string>)
    ensures Truthy(labelText) ==> r == labelText
    ensures !Truthy(labelText) ==> r == children
  {
    if Truthy(labelText) then labelText else children
  }

  /** The rendered cell. */
  function Render(labelText: Option<string>, children: Option<string>, sortKey: Option<string>,
                  currentSort: Option<string>, currentOrder: SortOrder,
                  pathname: string, current: seq<Entry>, escape: string -> string): (c: Cell)
    ensures c.PlainCell? <==> !Truthy(sortKey)
    ensures c.content == DisplayLabel(labelText, children)
    ensures c.SortCell? ==> c.active == (currentSort == sortKey)
  {
    var content := DisplayLabel(labelText, children);
    if !Truthy(sortKey) then PlainCell(content)
    else
      var active := IsActive(currentSort, sortKey);
      SortCell(content, Href(pathname, SortQuery(current, sortKey.value, NextOrder(active, currentOrder)), escape),
               active, Direction(active, currentOrder))
  }

  /** A sortable cell links to its own path with `sort` set to its key and `order`
      set to the next order (`desc` only when it is active and ascending); every
      other parameter reads as before. */
  lemma SortLink(labelText: Option<string>, children: Option<string>, sortKey: string,
                 currentSort: Option<string>, currentOrder: SortOrder,
                 pathname: string, current: seq<Entry>, escape: string -> string)
    requires sortKey != ""
    ensures var c := Render(labelText, children, Some(sortKey), currentSort, currentOrder, pathname, current, escape);
      var next := if currentSort == Some(sortKey) && currentOrder == Asc then Desc else Asc;
      c.SortCell?
      && c.href == Href(pathname, SortQuery(current, sortKey, next), escape)
      && c.direction == (if currentSort == Some(sortKey) then currentOrder else Asc)
  {
  }
}
