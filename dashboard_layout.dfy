/**
 * The dashboard's frame: the sidebar's navigation with its active item, the
 * gate on the session status, and the collapsible sidebar.
 */
module DashboardLayout {
  import opened Wrappers
  import opened Strings

  datatype NavItem = NavItem(name: string, href: string)

  const Navigation: seq<NavItem> := [
    NavItem("Boards", "/dashboard"),
    NavItem("Calendar", "/dashboard/calendar"),
    NavItem("Settings", "/dashboard/settings")
  ]

  /**
   * The highlighted item: the Boards entry (href `/dashboard`) matches the
   * dashboard itself and any board page; every other entry matches by prefix.
   */
  predicate IsActive(item: NavItem, pathname: string)
  {
    if item.href == "/dashboard" then pathname == "/dashboard" || StartsWith(pathname, "/dashboard/boards")
    else StartsWith(pathname, item.href)
  }

  /** Two prefixes that differ at some position cannot both start the same string. */
  lemma {:induction false} PrefixesExclusive(s: string, a: string, b: string, k: nat)
    requires k < |a| && k < |b| && a[k] != b[k]
    ensures !(StartsWith(s, a) && StartsWith(s, b))
  {
    if StartsWith(s, a) {
      assert s[..|a|][k] == a[k];
      assert s[k] != b[k];
      if |b| <= |s| {
        assert s[..|b|][k] != b[k];
      }
    }
  }

  /** The exact path `/dashboard` is too short to start with a longer href. */
  lemma {:induction false} TooShortForPrefix(s: string, a: string)
    requires |s| < |a|
    ensures !StartsWith(s, a)
  {
  }

  /** Whatever the path, at most one navigation item is highlighted. */
  lemma {:induction false} AtMostOneActive(pathname: string)
    ensures forall i, j :: 0 <= i < j < |Navigation| ==>
      !(IsActive(Navigation[i], pathname) && IsActive(Navigation[j], pathname))
  {
    var boards, calendar, settings := "/dashboard/boards", "/dashboard/calendar", "/dashboard/settings";
    assert boards[11] == 'b' && calendar[11] == 'c' && settings[11] == 's';
    PrefixesExclusive(pathname, boards, calendar, 11);
    PrefixesExclusive(pathname, boards, settings, 11);
    PrefixesExclusive(pathname, calendar, settings, 11);
    if pathname == "/dashboard" {
      TooShortForPrefix(pathname, calendar);
      TooShortForPrefix(pathname, settings);
    }
  }

  /** `useSession().status`. */
  datatype AuthStatus = Loading | Unauthenticated | Authenticated

  /** What the layout renders: a spinner, nothing, or the sidebar and the page. */
  datatype Screen = Spinner | Nothing | Dashboard

  function Render(status: AuthStatus): Screen
  {
    match status
    case Loading => Spinner
    case Unauthenticated => Nothing
    case Authenticated => Dashboard
  }

  /** The redirect effect: where the router is sent for a status, if anywhere. */
  function Redirect(status: AuthStatus): Option<string>
  {
    if status == Unauthenticated then Some("/auth/login") else None
  }

  /**
   * The gate: the dashboard is shown only to a signed-in user; while the
   * session loads only a spinner shows; a signed-out user sees nothing and is
   * sent to the login page, and nobody else is redirected.
   */
  lemma Gate(status: AuthStatus)
    ensures Render(status) == Dashboard <==> status == Authenticated
    ensures Render(status) == Spinner <==> status == Loading
    ensures Redirect(status).Some? <==> Render(status) == Nothing
    ensures Redirect(status).Some? ==> Redirect(status).value == "/auth/login"
  {
  }

  /** The sidebar's one piece of state. */
  class Sidebar {
    var collapsed: bool

    constructor ()
      ensures !collapsed
    {
      collapsed := false;
    }

    /** The header button: the sidebar switches between its two widths. */
    method Toggle()
      modifies this
      ensures collapsed == !old(collapsed)
      ensures Width() == if old(collapsed) then 64 else 20
    {
      collapsed := !collapsed;
    }

    /**
     * The sidebar's width in the stylesheet's spacing units (`w-20` / `w-64`);
     * the content's left margin (`ml-20` / `ml-64`) is chosen by the same
     * flag, so it is this value too.
     */
    function Width(): nat
      reads this
    {
      if collapsed then 20 else 64
    }
  }
}
