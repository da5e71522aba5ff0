// The navigation sidebar: which links are highlighted for the current path,
// when the Quotations group is unfolded, and the expand / dropdown / settings
// state that its buttons toggle.

module Sidebar {

  import opened Wrappers

  datatype ChildLink = ChildLink(text: string, href: string)
  datatype NavLink = NavLink(text: string, href: string, children: Option<seq<ChildLink>>)

  const SidebarLinks: seq<NavLink> := [
    NavLink("Dashboard", "/dashboard", None),
    NavLink("User Management", "/users", None),
    NavLink("Quotations", "/quotations",
            Some([ChildLink("Vendor", "/quotations/vendor"), ChildLink("Supplier", "/quotations/supplier")])),
    NavLink("Assets", "/assets", None),
    NavLink("Expenses", "/expenses", None),
    NavLink("Amenities", "/amenities", None),
    NavLink("Invoices", "/invoices", None)
  ]

  /** The label whose button opens the settings panel rather than a link group. */
  const SettingsLabel := "Settings"

  /** A top-level link is highlighted on its own path and, unless it is the root, on
      every path below it; a "#" placeholder never is. */
  predicate IsActive(pathname: string, href: string)
    ensures IsActive(pathname, href) ==> href != "#" && href <= pathname
  {
    href != "#" && (pathname == href || (href != "/" && href <= pathname))
  }

  /** Two highlighted links are nested: one href is a prefix of the other. */
  lemma ActiveLinksNest(pathname: string, h1: string, h2: string)
    requires IsActive(pathname, h1) && IsActive(pathname, h2)
    ensures h1 <= h2 || h2 <= h1
  {
    if |h1| <= |h2| {
      assert h1 == pathname[..|h1|] && h2[..|h1|] == pathname[..|h1|];
    } else {
      assert h2 == pathname[..|h2|] && h1[..|h2|] == pathname[..|h2|];
    }
  }

  /** No top-level href is a prefix of another. */
  lemma HrefsUnnested()
    ensures forall i, j :: 0 <= i < |SidebarLinks| && 0 <= j < |SidebarLinks| && i != j ==>
              !(SidebarLinks[i].href <= SidebarLinks[j].href)
  {
    forall i, j | 0 <= i < |SidebarLinks| && 0 <= j < |SidebarLinks| && i != j
      ensures !(SidebarLinks[i].href <= SidebarLinks[j].href)
    {
      var a, b := SidebarLinks[i].href, SidebarLinks[j].href;
      assert |a| >= 3 && |b| >= 3 && (a[1] != b[1] || a[2] != b[2]);
    }
  }

  /** So on any path at most one top-level link of the sidebar is highlighted. */
  lemma AtMostOneActive(pathname: string, i: int, j: int)
    requires 0 <= i < |SidebarLinks| && 0 <= j < |SidebarLinks| && i != j
    ensures !(IsActive(pathname, SidebarLinks[i].href) && IsActive(pathname, SidebarLinks[j].href))
  {
    HrefsUnnested();
    if IsActive(pathname, SidebarLinks[i].href) && IsActive(pathname, SidebarLinks[j].href) {
      ActiveLinksNest(pathname, SidebarLinks[i].href, SidebarLinks[j].href);
    }
  }

  /** `children.some(child => pathname.startsWith(child.href))`. */
  function SomeChildBelow(children: seq<ChildLink>, pathname: string): (r: bool)
    ensures r <==> exists i :: 0 <= i < |children| && children[i].href <= pathname
  {
    if children == [] then false
    else if children[0].href <= pathname then true
    else
      var rest := SomeChildBelow(children[1..], pathname);
      assert rest <==> exists i :: 1 <= i < |children| && children[i].href <= pathname by {
        if rest {
          var k :| 0 <= k < |children[1..]| && children[1..][k].href <= pathname;
          assert children[k + 1] == children[1..][k];
        }
        if i :| 1 <= i < |children| && children[i].href <= pathname {
          assert children[1..][i - 1] == children[i];
        }
      }
      rest
  }

  /** A link group is unfolded when it was opened, or when the path is below one of its children. */
  predicate IsDropdownOpen(openDropdown: Option<string>, pathname: string, link: NavLink)
    requires link.children.Some?
    ensures IsDropdownOpen(openDropdown, pathname, link)
            <==> openDropdown == Some(link.text)
                 || exists i :: 0 <= i < |link.children.value| && link.children.value[i].href <= pathname
  {
    openDropdown == Some(link.text) || SomeChildBelow(link.children.value, pathname)
  }

  /** A child link is highlighted only on its exact path. */
  predicate IsChildActive(pathname: string, child: ChildLink)
    ensures IsChildActive(pathname, child) ==> child.href <= pathname
  {
    pathname == child.href
  }

  /** A highlighted child is always visible: its group is unfolded whatever was clicked. */
  lemma ActiveChildIsShown(openDropdown: Option<string>, pathname: string, link: NavLink, k: int)
    requires link.children.Some? && 0 <= k < |link.children.value|
    requires IsChildActive(pathname, link.children.value[k])
    ensures IsDropdownOpen(openDropdown, pathname, link)
  {
    assert link.children.value[k].href <= pathname;
  }

  /** The settings flag and the clicked group (`openDropdown`) are never both set. A group
      may still show unfolded because the path is below one of its children. */
  predicate Exclusive(showSettings: bool, openDropdown: Option<string>)
  {
    !(showSettings && openDropdown.Some?)
  }

  /** The component's state. */
  class SidebarState {
    var isExpanded: bool
    var openDropdown: Option<string>
    var showSettings: bool

    constructor ()
      ensures isExpanded && openDropdown == None && !showSettings
      ensures Exclusive(showSettings, openDropdown)
    {
      isExpanded := true;
      openDropdown := None;
      showSettings := false;
    }

    /** `handleDropdown`: the Settings button flips the settings panel and clears the
        clicked group; any other group button folds or unfolds that group and closes the
        settings. Whatever the state before, the two are exclusive afterwards. */
    method HandleDropdown(group: string)
      modifies this
      ensures group == SettingsLabel ==> showSettings == !old(showSettings) && openDropdown == None
      ensures group != SettingsLabel ==>
                && openDropdown == (if old(openDropdown) == Some(group) then None else Some(group))
                && !showSettings
      ensures Exclusive(showSettings, openDropdown)
      ensures isExpanded == old(isExpanded)
    {
      if group == SettingsLabel {
        showSettings := !showSettings;
        openDropdown := None;
      } else {
        openDropdown := if openDropdown == Some(group) then None else Some(group);
        showSettings := false;
      }
    }

    /** The expand / collapse button. */
    method ToggleExpanded()
      modifies this
      ensures isExpanded == !old(isExpanded)
      ensures openDropdown == old(openDropdown) && showSettings == old(showSettings)
    {
      isExpanded := !isExpanded;
    }
  }

  /** Clicking the same group button twice restores the group, except that a different
      group that was open before ends up folded; the settings panel stays closed. */
  method DropdownTwice(s: SidebarState, group: string)
    requires group != SettingsLabel
    modifies s
    ensures old(s.openDropdown) in {None, Some(group)} ==> s.openDropdown == old(s.openDropdown)
    ensures old(s.openDropdown) !in {None, Some(group)} ==> s.openDropdown == None
    ensures !s.showSettings && s.isExpanded == old(s.isExpanded)
  {
    s.HandleDropdown(group);
    s.HandleDropdown(group);
  }
}
