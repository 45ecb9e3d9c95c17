/**
 * What the pages share about where the user is sent and what is
 * highlighted: the redirect of a visitor to `/auth` once authentication
 * settled (`src/pages/CreateJob.tsx` and `src/pages/Dashboard.tsx`), and the
 * sidebar highlighting of the admin and dashboard layouts (`isActive` in
 * `src/pages/Admin.tsx` and `src/pages/Dashboard.tsx`): an exact link is
 * active on its own path only, any other link on every path that starts
 * with its target.
 */
module Navigation {
  import opened Wrappers
  import opened Schema

  /** The effect on `[user, loading]`: once authentication settled with nobody signed in, go to `/auth`. */
  function AuthRedirect(loading: bool, user: Option<Id>): (nav: Option<string>)
    ensures nav.Some? ==> nav.value == "/auth"
  {
    if !loading && user.None? then Some("/auth") else None
  }

  /** The redirect happens exactly when authentication settled with no user; while loading, never. */
  lemma AuthRedirectOnlyAnonymous(loading: bool, user: Option<Id>)
    ensures AuthRedirect(loading, user).Some? <==> !loading && user.None?
  {
  }

  /** One entry of `sidebarLinks`: its target and whether it matches exactly. */
  datatype SidebarLink = SidebarLink(href: string, exact: bool)

  /** `isActive(href, exact)` on the current `location.pathname`. */
  predicate IsActive(path: string, link: SidebarLink) {
    if link.exact then path == link.href else link.href <= path
  }

  /** An exact link is active only on its own path; any link is active on its own path. */
  lemma IsActiveMeaning(path: string, link: SidebarLink)
    ensures link.exact ==> (IsActive(path, link) <==> path == link.href)
    ensures !link.exact ==> (IsActive(path, link) <==> |link.href| <= |path| && path[..|link.href|] == link.href)
    ensures IsActive(link.href, link)
  {
  }

  /** No two links of the sidebar are active together. */
  ghost predicate AtMostOneActive(links: seq<SidebarLink>, path: string) {
    forall i, j | 0 <= i < |links| && 0 <= j < |links| && IsActive(path, links[i]) && IsActive(path, links[j]) :: i == j
  }

  /** On a link's own path, that link and no other is highlighted. */
  ghost predicate OwnPathHighlightsOnlyIt(links: seq<SidebarLink>) {
    forall i, j | 0 <= i < |links| && 0 <= j < |links| :: IsActive(links[i].href, links[j]) <==> i == j
  }

  /**
   * Two prefix links whose targets differ at some position below both
   * lengths cannot both be active.
   */
  lemma {:induction false} DivergingPrefixes(path: string, a: SidebarLink, b: SidebarLink, k: nat)
    requires !a.exact && !b.exact
    requires k < |a.href| && k < |b.href| && a.href[k] != b.href[k]
    ensures IsActive(path, a) ==> !IsActive(path, b)
  {
    if IsActive(path, a) {
      assert path[k] == a.href[k];
      if |b.href| <= |path| {
        assert path[..|b.href|][k] != b.href[k];
      }
    }
  }
}
