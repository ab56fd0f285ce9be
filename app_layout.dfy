/** Navigation matching of the application layout: the fixed table of
    navigation items, which item the sidebar marks active for a path, and
    which label the header shows. */
module AppLayout {
  import opened Wrappers

  datatype NavItem = NavItem(href: string, caption: string)

  const DashboardHref: string := "/dashboard"

  /** The sidebar entries, in display order. */
  const NavItems: seq<NavItem> := [
    NavItem("/dashboard", "Dashboard"),
    NavItem("/recommendations", "Recommendations"),
    NavItem("/actions", "Actions"),
    NavItem("/logs", "Logs"),
    NavItem("/settings", "Settings")
  ]

  /** Raw string prefix test, as `String.prototype.startsWith`. */
  predicate StartsWith(s: string, prefix: string) {
    |prefix| <= |s| && s[..|prefix|] == prefix
  }

  /** Whether the sidebar marks `item` active for `pathname`: on its exact href,
      and, for every item but the dashboard, on any path its href prefixes. */
  predicate IsActive(pathname: string, item: NavItem)
    ensures IsActive(pathname, item) ==> StartsWith(pathname, item.href)
    ensures item.href == DashboardHref ==> (IsActive(pathname, item) <==> pathname == item.href)
  {
    pathname == item.href || (item.href != DashboardHref && StartsWith(pathname, item.href))
  }

  /** The index of the first item, in list order, whose href prefixes `pathname`. */
  function FirstPrefixMatch(items: seq<NavItem>, pathname: string): (r: Option<nat>)
    ensures r.Some? ==>
      r.value < |items| && StartsWith(pathname, items[r.value].href) &&
      forall j :: 0 <= j < r.value ==> !StartsWith(pathname, items[j].href)
    ensures r.None? <==> forall j :: 0 <= j < |items| ==> !StartsWith(pathname, items[j].href)
  {
    if items == [] then None
    else if StartsWith(pathname, items[0].href) then Some(0)
    else match FirstPrefixMatch(items[1..], pathname)
      case None => None
      case Some(k) => Some(k + 1)
  }

  /** The header title: the label of the first item whose href prefixes the
      path, absent when none does. */
  function HeaderTitle(pathname: string): (t: Option<string>)
    ensures t.None? <==> forall j :: 0 <= j < |NavItems| ==> !StartsWith(pathname, NavItems[j].href)
    ensures t.Some? ==>
      exists i :: 0 <= i < |NavItems| && StartsWith(pathname, NavItems[i].href) &&
        t.value == NavItems[i].caption && forall j :: 0 <= j < i ==> !StartsWith(pathname, NavItems[j].href)
  {
    match FirstPrefixMatch(NavItems, pathname)
    case None => None
    case Some(i) => Some(NavItems[i].caption)
  }

  /** Every item is active on its own href; the dashboard only there, every
      other item on every path its href prefixes. */
  lemma ActiveCharacterization(pathname: string, i: nat)
    requires i < |NavItems|
    ensures IsActive(NavItems[i].href, NavItems[i])
    ensures i == 0 ==> (IsActive(pathname, NavItems[i]) <==> pathname == DashboardHref)
    ensures i != 0 ==> (IsActive(pathname, NavItems[i]) <==> StartsWith(pathname, NavItems[i].href))
  {
  }

  /** The sample paths: `/logs/2` and `/logsx` both activate Logs, while
      `/dashboard/x` does not activate Dashboard. */
  lemma SamplePaths()
    ensures IsActive("/logs/2", NavItems[3]) && IsActive("/logsx", NavItems[3])
    ensures !IsActive("/dashboard/x", NavItems[0])
  {
    assert "/logs/2"[..5] == "/logs";
    assert "/logsx"[..5] == "/logs";
  }

  /** No href of the table is a prefix of another one. */
  lemma HrefsPrefixFree(i: nat, j: nat)
    requires i < |NavItems| && j < |NavItems| && i != j
    ensures !StartsWith(NavItems[j].href, NavItems[i].href)
  {
    var a, b := NavItems[i].href, NavItems[j].href;
    // The second characters of the five hrefs are pairwise distinct.
    assert |a| >= 2 && |b| >= 2;
    assert a[1] != b[1];
  }

  /** Two prefixes of one string are comparable: the shorter prefixes the longer. */
  lemma PrefixesComparable(s: string, a: string, b: string)
    requires StartsWith(s, a) && StartsWith(s, b) && |a| <= |b|
    ensures StartsWith(b, a)
  {
    assert b[..|a|] == s[..|b|][..|a|] == s[..|a|];
  }

  /** At most one item of the table matches any path by prefix. */
  lemma AtMostOnePrefixMatch(pathname: string, i: nat, j: nat)
    requires i < |NavItems| && j < |NavItems|
    requires StartsWith(pathname, NavItems[i].href) && StartsWith(pathname, NavItems[j].href)
    ensures i == j
  {
    if i != j {
      if |NavItems[i].href| <= |NavItems[j].href| {
        PrefixesComparable(pathname, NavItems[i].href, NavItems[j].href);
        HrefsPrefixFree(i, j);
      } else {
        PrefixesComparable(pathname, NavItems[j].href, NavItems[i].href);
        HrefsPrefixFree(j, i);
      }
    }
  }

  /** At most one item is active for any path. */
  lemma AtMostOneActive(pathname: string, i: nat, j: nat)
    requires i < |NavItems| && j < |NavItems|
    requires IsActive(pathname, NavItems[i]) && IsActive(pathname, NavItems[j])
    ensures i == j
  {
    AtMostOnePrefixMatch(pathname, i, j);
  }

  /** When an item is active, the header shows that item's label. */
  lemma ActiveItemIsTitle(pathname: string, i: nat)
    requires i < |NavItems| && IsActive(pathname, NavItems[i])
    ensures HeaderTitle(pathname) == Some(NavItems[i].caption)
  {
    var t := HeaderTitle(pathname);
    var k :| 0 <= k < |NavItems| && StartsWith(pathname, NavItems[k].href) && t.value == NavItems[k].caption;
    AtMostOnePrefixMatch(pathname, i, k);
  }

  /** The header shows a title while no item is active exactly on the paths
      that extend `/dashboard` strictly, and that title is "Dashboard". */
  lemma TitleWithoutActiveItem(pathname: string)
    ensures (HeaderTitle(pathname).Some? && forall i :: 0 <= i < |NavItems| ==> !IsActive(pathname, NavItems[i]))
      <==> (StartsWith(pathname, DashboardHref) && pathname != DashboardHref)
    ensures StartsWith(pathname, DashboardHref) && pathname != DashboardHref ==>
      HeaderTitle(pathname) == Some("Dashboard")
  {
    if StartsWith(pathname, DashboardHref) && pathname != DashboardHref {
      assert HeaderTitle(pathname) == Some("Dashboard");
      forall i | 0 <= i < |NavItems| ensures !IsActive(pathname, NavItems[i]) {
        if i != 0 && IsActive(pathname, NavItems[i]) {
          AtMostOnePrefixMatch(pathname, 0, i);
        }
      }
    }
    if HeaderTitle(pathname).Some? && forall i :: 0 <= i < |NavItems| ==> !IsActive(pathname, NavItems[i]) {
      var k :| 0 <= k < |NavItems| && StartsWith(pathname, NavItems[k].href);
      assert !IsActive(pathname, NavItems[k]);
      assert k == 0;
    }
  }

  /** `/dashboard/x` has the title "Dashboard" but no active item. */
  lemma DashboardSubpathDisagrees()
    ensures HeaderTitle("/dashboard/x") == Some("Dashboard")
    ensures forall i :: 0 <= i < |NavItems| ==> !IsActive("/dashboard/x", NavItems[i])
  {
    assert "/dashboard/x"[..10] == DashboardHref;
    TitleWithoutActiveItem("/dashboard/x");
  }
}
