/**
 * `NavBar`: the four top-level tabs and which of them is highlighted for the
 * current path.
 */
module NavBar {
  import opened Text

  datatype NavItem = NavItem(title: string, href: string)

  const NavItems: seq<NavItem> := [
    NavItem("Dashboard", "/"),
    NavItem("Vendors", "/vendors"),
    NavItem("Compliance", "/compliance"),
    NavItem("Union Rates", "/rates/union-rates")
  ]

  /** `isActive(href)`: the dashboard only on exactly `/`, every other tab on any
      path that begins with its href. */
  predicate IsActive(pathname: string, href: string) {
    if href == "/" then pathname == "/" else StartsWith(pathname, href)
  }

  /** The dashboard tab is active exactly on `/`; any other tab exactly when the path
      has its href as a prefix. */
  lemma ActiveRule(pathname: string, href: string)
    ensures IsActive(pathname, "/") <==> pathname == "/"
    ensures href != "/" ==> (IsActive(pathname, href) <==> |href| <= |pathname| && pathname[..|href|] == href)
  {
  }

  /** On `/` only the dashboard is highlighted. */
  lemma OnlyDashboardOnRoot()
    ensures forall i :: 0 <= i < |NavItems| ==> (IsActive("/", NavItems[i].href) <==> i == 0)
  {
    assert !StartsWith("/", "/vendors");
    assert !StartsWith("/", "/compliance");
    assert !StartsWith("/", "/rates/union-rates");
  }

  /** A nested vendor page highlights Vendors and not the dashboard or Compliance. */
  lemma NestedVendorPath()
    ensures IsActive("/vendors/x/insurance", "/vendors")
    ensures !IsActive("/vendors/x/insurance", "/")
    ensures !IsActive("/vendors/x/insurance", "/compliance")
  {
    assert "/vendors/x/insurance"[..8] == "/vendors";
    assert "/vendors/x/insurance"[..11][1] == 'v';
  }

  /** The prefix test is on characters, not path segments: `/vendorsX` highlights Vendors. */
  lemma PrefixNotSegment()
    ensures IsActive("/vendorsX", "/vendors")
  {
    assert "/vendorsX"[..8] == "/vendors";
  }

  /** Every path other than `/` that highlights a tab highlights exactly one: the hrefs
      other than `/` are not prefixes of one another. */
  lemma AtMostOneTab(pathname: string, i: int, j: int)
    requires 0 <= i < |NavItems| && 0 <= j < |NavItems|
    requires IsActive(pathname, NavItems[i].href) && IsActive(pathname, NavItems[j].href)
    ensures i == j
  {
    if i != 0 && j != 0 {
      assert pathname[1] == NavItems[i].href[1] && pathname[1] == NavItems[j].href[1];
    }
  }
}
