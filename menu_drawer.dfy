/** The menu drawer of the redux template's header: an open/closed flag and
    the navigation entries shown for the current sign-in flag. */
module MenuDrawerComponent {
  import opened Sequences

  /** What clicking an entry does: push a path onto the history, or call the
      `handleLogout` prop. */
  datatype Click = Push(path: string) | HandleLogout

  /** A navigation entry as the drawer receives it, without a `visible` key. */
  datatype NavItem =
    | Link(primaryText: string, className: string, onClick: Click)
    | Divider
    | Subheader(primaryText: string, className: string)

  /** An entry of the candidate list, with its `visible` key. */
  datatype MenuCandidate = MenuCandidate(item: NavItem, visible: bool)

  const HomeLink := Link("Home", "MenuDrawer-link", Push("/home"))
  const DashboardLink := Link("Dashboard", "MenuDrawer-link", Push("/dashboard"))
  const UserSubheader := Subheader("User", "MenuDrawer-subheader")
  const SignInLink := Link("Sign In", "MenuDrawer-link", Push("/login"))
  const SignOutLink := Link("Sign Out", "MenuDrawer-link", HandleLogout)

  /** The six candidate entries, in the order the drawer lists them. */
  function Candidates(isAuthenticated: bool): seq<MenuCandidate>
  {
    [ MenuCandidate(HomeLink, true),
      MenuCandidate(DashboardLink, isAuthenticated),
      MenuCandidate(Divider, true),
      MenuCandidate(UserSubheader, true),
      MenuCandidate(SignInLink, !isAuthenticated),
      MenuCandidate(SignOutLink, isAuthenticated) ]
  }

  /** The items of the visible candidates, in order, without `visible`. */
  function VisibleItems(cs: seq<MenuCandidate>): seq<NavItem>
    decreases |cs|
  {
    if cs == [] then []
    else (if cs[0].visible then [cs[0].item] else []) + VisibleItems(cs[1..])
  }

  /** The items of all candidates, in order. */
  function AllItems(cs: seq<MenuCandidate>): (r: seq<NavItem>)
    ensures |r| == |cs| && forall i :: 0 <= i < |cs| ==> r[i] == cs[i].item
  {
    seq(|cs|, i requires 0 <= i < |cs| => cs[i].item)
  }

  /** The filter keeps the order of the candidates. */
  lemma {:induction false} VisibleItemsKeepOrder(cs: seq<MenuCandidate>)
    ensures IsSubsequence(VisibleItems(cs), AllItems(cs))
    decreases |cs|
  {
    if cs != [] {
      VisibleItemsKeepOrder(cs[1..]);
      assert AllItems(cs)[1..] == AllItems(cs[1..]);
      var rest := VisibleItems(cs[1..]);
      var all := AllItems(cs);
      assert all != [] && all[0] == cs[0].item;
      if cs[0].visible {
        assert VisibleItems(cs) == [cs[0].item] + rest;
        assert ([cs[0].item] + rest)[1..] == rest;
      } else {
        assert VisibleItems(cs) == rest;
      }
    }
  }

  /** The menu for each sign-in flag, written out. */
  function MenuFor(isAuthenticated: bool): seq<NavItem>
  {
    if isAuthenticated then [HomeLink, DashboardLink, Divider, UserSubheader, SignOutLink]
    else [HomeLink, Divider, UserSubheader, SignInLink]
  }

  /** The filter applied to the six candidates gives the menu written out. */
  lemma {:induction false} MenuItemsAreMenuFor(isAuthenticated: bool)
    ensures VisibleItems(Candidates(isAuthenticated)) == MenuFor(isAuthenticated)
  {
    var cs := Candidates(isAuthenticated);
    assert cs[5..][1..] == [];
    assert VisibleItems(cs[5..]) == (if isAuthenticated then [SignOutLink] else []);
    assert cs[4..][1..] == cs[5..];
    assert VisibleItems(cs[4..]) == (if isAuthenticated then [SignOutLink] else [SignInLink]);
    assert cs[3..][1..] == cs[4..];
    assert VisibleItems(cs[3..]) == [UserSubheader] + VisibleItems(cs[4..]);
    assert cs[2..][1..] == cs[3..];
    assert VisibleItems(cs[2..]) == [Divider] + VisibleItems(cs[3..]);
    assert cs[1..][1..] == cs[2..];
    assert VisibleItems(cs[1..]) == (if isAuthenticated then [DashboardLink] else []) + VisibleItems(cs[2..]);
    assert VisibleItems(cs) == [HomeLink] + VisibleItems(cs[1..]);
  }

  /** Which entries the written-out menu holds, for each flag. */
  lemma MenuForEntries(isAuthenticated: bool)
    ensures var items := MenuFor(isAuthenticated);
      && HomeLink in items && Divider in items && UserSubheader in items
      && (DashboardLink in items <==> isAuthenticated)
      && (SignOutLink in items <==> isAuthenticated)
      && (SignInLink in items <==> !isAuthenticated)
      && |items| == (if isAuthenticated then 5 else 4)
  {
    var items := MenuFor(isAuthenticated);
    if isAuthenticated {
      assert items[0] == HomeLink && items[1] == DashboardLink && items[2] == Divider;
      assert items[3] == UserSubheader && items[4] == SignOutLink;
      assert SignInLink !in items;
    } else {
      assert items[0] == HomeLink && items[1] == Divider;
      assert items[2] == UserSubheader && items[3] == SignInLink;
      assert DashboardLink !in items && SignOutLink !in items;
    }
  }

  /** Home, the divider and the "User" subheader are always there; the
      dashboard and Sign Out exactly when signed in; Sign In exactly when
      signed out, so exactly one of Sign In and Sign Out; five entries when
      signed in and four when not, in the candidates' order. */
  lemma MenuByFlag(isAuthenticated: bool)
    ensures var items := VisibleItems(Candidates(isAuthenticated));
      && HomeLink in items && Divider in items && UserSubheader in items
      && (DashboardLink in items <==> isAuthenticated)
      && (SignOutLink in items <==> isAuthenticated)
      && (SignInLink in items <==> !isAuthenticated)
      && |items| == (if isAuthenticated then 5 else 4)
      && IsSubsequence(items, AllItems(Candidates(isAuthenticated)))
  {
    MenuItemsAreMenuFor(isAuthenticated);
    MenuForEntries(isAuthenticated);
    VisibleItemsKeepOrder(Candidates(isAuthenticated));
  }

  /** The `reduce` of `getMenuItems`: pushes each visible candidate, with its
      `visible` key deleted, onto the accumulator. */
  method KeepVisible(menuItems: seq<MenuCandidate>) returns (items: seq<NavItem>)
    ensures items == VisibleItems(menuItems)
  {
    items := [];
    var i := 0;
    while i < |menuItems|
      invariant 0 <= i <= |menuItems|
      invariant items + VisibleItems(menuItems[i..]) == VisibleItems(menuItems)
    {
      var item := menuItems[i];
      assert menuItems[i..][1..] == menuItems[i + 1..];
      if item.visible {
        items := items + [item.item];
      }
      i := i + 1;
    }
    assert menuItems[i..] == [];
  }

  class MenuDrawer {
    /** The `isAuthenticated` prop, which the store's user slice keeps current
        while the drawer stays mounted. */
    var isAuthenticated: bool
    /** The `visible` state field: whether the drawer is open. */
    var visible: bool

    /** The drawer starts closed. */
    constructor (isAuthenticated: bool)
      ensures this.isAuthenticated == isAuthenticated
      ensures !visible
    {
      this.isAuthenticated := isAuthenticated;
      visible := false;
    }

    /** `handleToggle`: opens a closed drawer and closes an open one, so two
        toggles restore the flag. */
    method HandleToggle()
      modifies this
      ensures visible == !old(visible)
      ensures isAuthenticated == old(isAuthenticated)
    {
      visible := !visible;
    }

    /** New props from the store (after a sign-in or sign-out): the flag
        changes, the drawer's own `visible` state does not. */
    method ReceiveProps(isAuthenticated: bool)
      modifies this
      ensures this.isAuthenticated == isAuthenticated
      ensures visible == old(visible)
    {
      this.isAuthenticated := isAuthenticated;
    }

    /** `getMenuItems`: the drawer's six candidates for the flag it holds now,
        filtered by `visible`. */
    method GetMenuItems() returns (items: seq<NavItem>)
      ensures items == VisibleItems(Candidates(isAuthenticated))
      ensures items == MenuFor(isAuthenticated)
    {
      var menuItems := Candidates(isAuthenticated);
      items := KeepVisible(menuItems);
      MenuItemsAreMenuFor(isAuthenticated);
    }
  }
}
