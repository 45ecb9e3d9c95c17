/**
 * The admin area's layout (`src/pages/Admin.tsx`): the access check that
 * waits for authentication, sends a visitor to `/auth` and a non-admin to
 * `/dashboard`, and lets an admin in; what the layout renders; and its
 * sidebar.
 */
module AdminLayout {
  import opened Wrappers
  import opened Schema
  import opened Navigation

  /** `sidebarLinks`: the overview (matched exactly), users and jobs. */
  const AdminLinks: seq<SidebarLink> := [
    SidebarLink("/admin", true),
    SidebarLink("/admin/users", false),
    SidebarLink("/admin/jobs", false)]

  /** On any path at most one admin link is highlighted, and on each link's own path exactly that one. */
  lemma {:induction false} AdminSidebarHighlightsOne(path: string)
    ensures AtMostOneActive(AdminLinks, path)
    ensures OwnPathHighlightsOnlyIt(AdminLinks)
  {
    DivergingPrefixes(path, AdminLinks[1], AdminLinks[2], 7);
    assert !("/admin/users" <= "/admin/jobs") && !("/admin/jobs" <= "/admin/users") by {
      assert "/admin/users"[7] != "/admin/jobs"[7];
    }
  }

  /** What the layout renders. */
  datatype AdminScreen = Spinner | Nothing | Content

  /** `if (loading || checking)` the spinner; `if (!user || !isAdmin)` nothing; else the sidebar and the page. */
  function Render(loading: bool, checking: bool, user: Option<Id>, isAdmin: bool): AdminScreen {
    if loading || checking then Spinner
    else if user.None? || !isAdmin then Nothing
    else Content
  }

  /** The admin pages render only once authentication settled, the check passed, and the user is a signed-in admin. */
  lemma ContentOnlyForAdmin(loading: bool, checking: bool, user: Option<Id>, isAdmin: bool)
    ensures Render(loading, checking, user, isAdmin) == Content
        <==> !loading && !checking && user.Some? && isAdmin
  {
  }

  /** The layout's own state. */
  class AdminGate {
    var checking: bool

    constructor ()
      ensures checking
    {
      checking := true;
    }

    /**
     * The access effect: no decision while authentication loads; then a
     * visitor goes to `/auth`, a signed-in non-admin to `/dashboard`, and
     * an admin ends the check.
     */
    method Check(loading: bool, user: Option<Id>, isAdmin: bool) returns (nav: Option<string>)
      modifies this`checking
      ensures loading ==> nav.None? && checking == old(checking)
      ensures !loading && user.None? ==> nav == Some("/auth") && checking == old(checking)
      ensures !loading && user.Some? && !isAdmin ==> nav == Some("/dashboard") && checking == old(checking)
      ensures !loading && user.Some? && isAdmin ==> nav.None? && !checking
      ensures old(checking) ==> (Render(loading, checking, user, isAdmin) == Content <==> !loading && user.Some? && isAdmin)
    {
      nav := None;
      if !loading {
        if user.None? {
          nav := Some("/auth");
        } else if !isAdmin {
          nav := Some("/dashboard");
        } else {
          checking := false;
        }
      }
    }
  }
}
