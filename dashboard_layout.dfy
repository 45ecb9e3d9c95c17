/**
 * The signed-in user's area (`src/pages/Dashboard.tsx`): what the layout
 * renders, how that agrees with the redirect of a visitor to `/auth`
 * (`Navigation.AuthRedirect`), and its sidebar.
 */
module DashboardLayout {
  import opened Wrappers
  import opened Schema
  import opened Navigation

  /** `sidebarLinks`: the profile (matched exactly), own jobs, own applications, payments. */
  const DashboardLinks: seq<SidebarLink> := [
    SidebarLink("/dashboard", true),
    SidebarLink("/dashboard/jobs", false),
    SidebarLink("/dashboard/applications", false),
    SidebarLink("/dashboard/payments", false)]

  /** On any path at most one dashboard link is highlighted, and on each link's own path exactly that one. */
  lemma {:induction false} DashboardSidebarHighlightsOne(path: string)
    ensures AtMostOneActive(DashboardLinks, path)
    ensures OwnPathHighlightsOnlyIt(DashboardLinks)
  {
    DivergingPrefixes(path, DashboardLinks[1], DashboardLinks[2], 11);
    DivergingPrefixes(path, DashboardLinks[1], DashboardLinks[3], 11);
    DivergingPrefixes(path, DashboardLinks[2], DashboardLinks[3], 11);
    assert DashboardLinks[1].href[11] != DashboardLinks[2].href[11];
    assert DashboardLinks[1].href[11] != DashboardLinks[3].href[11];
    assert DashboardLinks[2].href[11] != DashboardLinks[3].href[11];
  }

  /** What the layout renders. */
  datatype DashboardScreen = Spinner | Nothing | Content

  /** `if (loading)` the spinner; `if (!user)` nothing; else the sidebar and the page. */
  function Render(loading: bool, user: Option<Id>): DashboardScreen {
    if loading then Spinner
    else if user.None? then Nothing
    else Content
  }

  /**
   * While loading the spinner shows and nobody is redirected; a visitor
   * sees nothing and is redirected; a user sees the pages and is not.
   */
  lemma RenderAndRedirectAgree(loading: bool, user: Option<Id>)
    ensures Render(loading, user) == Spinner <==> loading
    ensures Render(loading, user) == Nothing <==> AuthRedirect(loading, user).Some?
    ensures Render(loading, user) == Content <==> !loading && user.Some?
  {
  }
}
