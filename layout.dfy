/**
 * The dashboard shell: the header title derived from the path, the active
 * navigation item, the login guard and the sign-out button.
 */
module DashboardLayout {
  import opened Wrappers
  import opened Text
  import opened Seqs
  import opened Session

  const LoginPath := "/auth/login"

  // ---------------------------------------------------------------------
  // getPageTitle

  /** `Boolean` as a filter on strings: only the empty string is falsy. */
  predicate NonEmpty(s: string) {
    s != ""
  }

  /** `pathname.split('/').filter(Boolean)`. */
  function Segments(pathname: string): (r: seq<string>)
    ensures forall i :: 0 <= i < |r| ==> r[i] != "" && '/' !in r[i]
  {
    var r := Filter(Split(pathname, '/'), NonEmpty);
    SplitPiecesFree(pathname, '/');
    forall i | 0 <= i < |r| ensures r[i] != "" && '/' !in r[i] {
      assert r[i] in r;
      FilterMembership(Split(pathname, '/'), NonEmpty, r[i]);
    }
    r
  }

  /** No piece `split` returns contains the separator. */
  lemma {:induction false} SplitPiecesFree(s: string, sep: char)
    ensures forall p :: p in Split(s, sep) ==> sep !in p
    decreases |s|
  {
    if |s| > 0 {
      SplitPiecesFree(s[1..], sep);
    }
  }

  /** The last segment with its first character raised and its other hyphens shown as spaces. */
  function SegmentTitle(segment: string): (r: string)
    requires segment != ""
    ensures |r| == |segment| && r[0] == UpperChar(segment[0])
    ensures forall i :: 1 <= i < |segment| ==> r[i] == if segment[i] == '-' then ' ' else segment[i]
  {
    [UpperChar(segment[0])] + ReplaceAll(segment[1..], '-', ' ')
  }

  /** The header title, as the source computes it. */
  function PageTitle(pathname: string): (r: string)
    ensures var path := Segments(pathname);
            r == "Dashboard" <== |path| == 0 || path[0] == "dashboard"
    ensures var path := Segments(pathname);
            |path| > 0 && path[0] != "dashboard" ==> r == SegmentTitle(path[|path| - 1])
  {
    var path := Segments(pathname);
    if |path| == 0 || path[0] == "dashboard" then "Dashboard" else SegmentTitle(path[|path| - 1])
  }

  /** Every page the layout wraps lives under `/dashboard`, so every such
      page is titled "Dashboard": the leads list is one example. */
  lemma PageTitleUnderDashboard(rest: string)
    ensures PageTitle("/dashboard/" + rest) == "Dashboard"
    ensures PageTitle("/dashboard/leads") == "Dashboard"
  {
    DashboardSegments(rest);
    DashboardSegments("leads");
    assert "/dashboard/" + "leads" == "/dashboard/leads";
  }

  lemma DashboardSegments(rest: string)
    ensures |Segments("/dashboard/" + rest)| > 0 && Segments("/dashboard/" + rest)[0] == "dashboard"
  {
    var t := "dashboard" + ['/'] + rest;
    assert "/dashboard/" + rest == "" + ['/'] + t;
    DashboardPieces(rest);
    var pieces := [""] + (["dashboard"] + Split(rest, '/'));
    assert Filter(pieces, NonEmpty) == Filter(["dashboard"] + Split(rest, '/'), NonEmpty);
    assert Filter(["dashboard"] + Split(rest, '/'), NonEmpty) == ["dashboard"] + Filter(Split(rest, '/'), NonEmpty);
  }

  /** The pieces of "/dashboard/" followed by `rest`. */
  lemma DashboardPieces(rest: string)
    ensures Split("" + ['/'] + ("dashboard" + ['/'] + rest), '/') == [""] + (["dashboard"] + Split(rest, '/'))
  {
    assert '/' !in "dashboard";
    SplitAfterPiece("dashboard", '/', rest);
    SplitAfterPiece("", '/', "dashboard" + ['/'] + rest);
  }

  /** The title the header evidently means to show: "Dashboard" on the
      dashboard itself and the last segment's title on every page below it. */
  function IntendedPageTitle(pathname: string): (r: string)
  {
    var path := Segments(pathname);
    if |path| == 0 || path == ["dashboard"] then "Dashboard" else SegmentTitle(path[|path| - 1])
  }

  /** Below the dashboard the intended title names the page. */
  lemma IntendedPageTitleNamesPage(rest: string)
    requires Segments("/dashboard/" + rest) != ["dashboard"]
    ensures var path := Segments("/dashboard/" + rest);
            |path| > 0 && IntendedPageTitle("/dashboard/" + rest) == SegmentTitle(path[|path| - 1])
    ensures IntendedPageTitle("/dashboard") == "Dashboard"
  {
    DashboardSegments(rest);
    DashboardSegments("");
    assert "/dashboard/" + "" == "/dashboard/";
    var s := "/dashboard";
    SplitAfterPiece("", '/', s[1..]);
    assert s == "" + ['/'] + s[1..];
    SplitNoSeparator("dashboard", '/');
    assert s[1..] == "dashboard";
  }

  // ---------------------------------------------------------------------
  // The navigation

  const DashboardHref := "/dashboard"

  const NavHrefs: seq<string> := [
    "/dashboard", "/dashboard/leads", "/dashboard/cases", "/dashboard/appointments",
    "/dashboard/documents", "/dashboard/communications", "/dashboard/activity", "/dashboard/workflows"
  ]

  /** Whether the item linking to `href` is highlighted on `pathname`. */
  predicate IsActive(pathname: string, href: string) {
    pathname == href || (href != DashboardHref && StartsWith(pathname, href))
  }

  /** The dashboard item is highlighted only on the dashboard itself; any
      other item is highlighted on its page and every page below it. */
  lemma IsActiveCases(pathname: string, href: string)
    ensures IsActive(pathname, DashboardHref) <==> pathname == DashboardHref
    ensures href != DashboardHref ==> (IsActive(pathname, href) <==> StartsWith(pathname, href))
  {
  }

  lemma StartsWithBoth(p: string, a: string, b: string)
    requires StartsWith(p, a) && StartsWith(p, b) && |a| <= |b|
    ensures StartsWith(b, a)
  {
    assert b[..|a|] == p[..|b|][..|a|];
  }

  /** Strings that differ at a position both have are not prefixes of one another. */
  lemma PrefixDiffers(a: string, b: string, k: int)
    requires 0 <= k < |a| && k < |b| && a[k] != b[k]
    ensures !StartsWith(a, b)
  {
    if |b| <= |a| {
      assert a[..|b|][k] == a[k];
    }
  }

  /** At most one navigation item is highlighted on any path. */
  lemma OneActiveItem(pathname: string, i: int, j: int)
    requires 0 <= i < |NavHrefs| && 0 <= j < |NavHrefs|
    requires IsActive(pathname, NavHrefs[i]) && IsActive(pathname, NavHrefs[j])
    ensures i == j
  {
    if i != j {
      NavDistinct(i, j);
      NavDistinct(j, i);
      // the dashboard link is active only on "/dashboard", which is shorter
      // than every other link; two other links would be prefixes of each other
      var a, b := NavHrefs[i], NavHrefs[j];
      if i != 0 && j != 0 {
        if |a| <= |b| {
          StartsWithBoth(pathname, a, b);
        } else {
          StartsWithBoth(pathname, b, a);
        }
      }
    }
  }

  /** The links are distinct, and no link other than the dashboard's is a
      prefix of another link. */
  lemma NavDistinct(i: int, j: int)
    requires 0 <= i < |NavHrefs| && 0 <= j < |NavHrefs|
    ensures i != j ==> NavHrefs[i] != NavHrefs[j]
    ensures i != j && j != 0 ==> !StartsWith(NavHrefs[i], NavHrefs[j])
  {
    var a, b := NavHrefs[i], NavHrefs[j];
    if i != j {
      if i == 0 || j == 0 {
        assert |a| != |b|;
        if i == 0 {
          assert |a| < |b|;
        }
      } else {
        assert |a| > 12 && |b| > 12;
        assert a[11] != b[11] || a[12] != b[12];
        PrefixDiffers(a, b, if a[11] != b[11] then 11 else 12);
      }
    }
  }

  // ---------------------------------------------------------------------
  // The guard effect and handleSignOut

  datatype LayoutUser = LayoutUser(name: string, email: string)

  class LayoutState {
    var user: Option<LayoutUser>
    /** The last `router.push` target. */
    var navigatedTo: Option<string>

    constructor ()
      ensures user == None && navigatedTo == None
    {
      user := None;
      navigatedTo := None;
    }

    /** The mount effect: without a session it sends the visitor to the login
        page and sets no user; otherwise the user's name falls back to "User". */
    method RunGuard(store: LocalStorage)
      modifies this
      ensures !HasSession(store.items) ==> user == old(user) && navigatedTo == Some(LoginPath)
      ensures HasSession(store.items) ==>
                navigatedTo == old(navigatedTo) &&
                user == Some(LayoutUser(
                  if Truthy(store.Get(UserNameKey)) then store.items[UserNameKey] else "User",
                  store.items[UserEmailKey]))
    {
      var isLoggedIn := store.Get(IsLoggedInKey);
      var userName := store.Get(UserNameKey);
      var userEmail := store.Get(UserEmailKey);
      if !Truthy(isLoggedIn) || !Truthy(userEmail) {
        navigatedTo := Some(LoginPath);
        return;
      }
      user := Some(LayoutUser(if Truthy(userName) then userName.value else "User", userEmail.value));
    }

    /** Removes the four session keys and goes to the login page. */
    method HandleSignOut(store: LocalStorage)
      modifies this, store
      ensures store.items == SignedOut(old(store.items))
      ensures !HasSession(store.items)
      ensures navigatedTo == Some(LoginPath) && user == old(user)
    {
      RemoveSession(store);
      SessionStates(old(store.items), "");
      navigatedTo := Some(LoginPath);
    }
  }
}
