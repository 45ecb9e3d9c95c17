/**
 * The admin's dialog that grants and revokes a user's roles
 * (`src/components/admin/ManageRolesDialog.tsx`): the read of the user's
 * roles, and the checkbox of each role, which inserts or deletes rows.
 */
module ManageRoles {
  import opened Wrappers
  import opened Schema
  import opened Store
  import Lists

  /** The checkboxes, in the order of `ROLES`. */
  const RoleChoices: seq<AppRole> := [User, Admin]

  /** Every role has a checkbox, once. */
  lemma EveryRoleOffered(role: AppRole)
    ensures role in RoleChoices && Lists.NoDuplicates(RoleChoices)
  {
  }

  /** `(data || []).map(r => r.role)`. */
  function RoleList(rows: seq<UserRole>): (roles: seq<AppRole>)
    ensures |roles| == |rows|
    ensures forall i | 0 <= i < |rows| :: roles[i] == rows[i].role
  {
    seq(|rows|, i requires 0 <= i < |rows| => rows[i].role)
  }

  /** The checked roles are exactly the roles the store grants to `u`. */
  ghost predicate MirrorsStore(roles: seq<AppRole>, t: Tables, u: Id) {
    forall role: AppRole :: role in roles <==> HasRole(t, u, role)
  }

  /** The roles read for a user, truthfully answered, are the roles the store grants. */
  lemma {:induction false} FetchMirrorsStore(t: Tables, u: Id, rows: seq<UserRole>)
    requires RolesOfUserAnswer(t, u, Success(rows))
    ensures MirrorsStore(RoleList(rows), t, u)
  {
    var roles := RoleList(rows);
    forall role: AppRole ensures role in roles <==> HasRole(t, u, role) {
      if role in roles {
        var i :| 0 <= i < |roles| && roles[i] == role;
        assert rows[i] in rows;
      }
      if HasRole(t, u, role) {
        var k :| k in t.roles && t.roles[k].userId == u && t.roles[k].role == role;
        assert t.roles[k] in rows;
        var i :| 0 <= i < |rows| && rows[i] == t.roles[k];
        assert roles[i] == role;
      }
    }
  }

  /** `userRoles.filter(r => r !== role)`. */
  function WithoutRole(roles: seq<AppRole>, role: AppRole): (r: seq<AppRole>)
    ensures forall x :: x in r <==> x in roles && x != role
  {
    Lists.Filter(roles, (x: AppRole) => x != role)
  }

  /** Revoking a role leaves the remaining roles in the order the list had them. */
  lemma WithoutRoleKeepsOrder(roles: seq<AppRole>, role: AppRole)
    ensures Lists.SubsequenceOf(WithoutRole(roles, role), roles)
  {
    Lists.FilterIsSubsequence(roles, (x: AppRole) => x != role);
  }

  /** A granted role, mirrored locally, keeps the list mirroring the store. */
  lemma {:induction false} GrantKeepsMirror(roles: seq<AppRole>, t: Tables, id: Id, u: Id, role: AppRole)
    requires id !in t.roles
    requires MirrorsStore(roles, t, u)
    ensures MirrorsStore(roles + [role], AfterInsertRole(t, id, RoleInsert(u, role), None).after, u)
  {
    var t2 := AfterInsertRole(t, id, RoleInsert(u, role), None).after;
    forall x: AppRole ensures x in roles + [role] <==> HasRole(t2, u, x) {
      if HasRole(t, u, x) {
        var k :| k in t.roles && t.roles[k].userId == u && t.roles[k].role == x;
        assert k in t2.roles && t2.roles[k] == t.roles[k];
      }
      if x == role {
        assert t2.roles[id].userId == u && t2.roles[id].role == x;
      }
    }
  }

  /** A revoked role, mirrored locally, keeps the list mirroring the store. */
  lemma {:induction false} RevokeKeepsMirror(roles: seq<AppRole>, t: Tables, u: Id, role: AppRole)
    requires MirrorsStore(roles, t, u)
    ensures MirrorsStore(WithoutRole(roles, role), AfterDeleteRoles(t, u, role, None).after, u)
  {
    var t2 := AfterDeleteRoles(t, u, role, None).after;
    forall x: AppRole ensures x in WithoutRole(roles, role) <==> HasRole(t2, u, x) {
      if x != role && HasRole(t, u, x) {
        var k :| k in t.roles && t.roles[k].userId == u && t.roles[k].role == x;
        assert k in t2.roles;
      }
    }
  }

  /** Granting a role the user lacked and then revoking it gives back the list as it was. */
  lemma {:induction false} GrantThenRevoke(roles: seq<AppRole>, role: AppRole)
    requires role !in roles
    ensures WithoutRole(roles + [role], role) == roles
  {
    var keep := (x: AppRole) => x != role;
    Lists.FilterAppend(roles, [role], keep);
    Lists.FilterKeepsAll(roles, keep);
  }

  /** The dialog's state; it stays mounted while the user it is shown for changes. */
  class ManageRolesDialog {
    var userId: Option<Id>
    var loading: bool
    var fetchingRoles: bool
    var userRoles: seq<AppRole>

    constructor (u: Option<Id>)
      ensures userId == u && !loading && !fetchingRoles && userRoles == []
    {
      userId := u;
      loading, fetchingRoles, userRoles := false, false, [];
    }

    /**
     * The users page passing another `userId`: the checked roles are kept
     * until a read for the new user succeeds, so a failed read leaves the
     * previous user's roles on show and the toggles work on that list.
     */
    method ShowFor(u: Option<Id>)
      modifies this`userId
      ensures userId == u
    {
      userId := u;
    }

    /** `userRoles.includes(role)`. */
    predicate Checked(role: AppRole)
      reads this
    {
      role in userRoles
    }

    /** The checked roles are the store's for the dialog's user. */
    ghost predicate InSync(t: Tables)
      reads this
    {
      userId.Some? ==> MirrorsStore(userRoles, t, userId.value)
    }

    /** `fetchUserRoles`, run when the dialog opens on a user: a failed read keeps the list. */
    method FetchUserRoles(db: Database, answer: Result<seq<UserRole>, DbError>)
      requires userId.Some? ==> RolesOfUserAnswer(db.tables, userId.value, answer)
      modifies this`userRoles, this`fetchingRoles
      ensures userId.None? ==> userRoles == old(userRoles) && fetchingRoles == old(fetchingRoles)
      ensures userId.Some? ==>
        !fetchingRoles && userRoles == (if answer.Success? then RoleList(answer.value) else old(userRoles))
      ensures userId.Some? && answer.Success? ==> InSync(db.tables)
    {
      if userId.None? {
        return;
      }
      fetchingRoles := true;
      if answer.Success? {
        userRoles := RoleList(answer.value);
        FetchMirrorsStore(db.tables, userId.value, answer.value);
      }
      fetchingRoles := false;
    }

    /**
     * `handleRoleToggle`: checking a role inserts a row for it, unchecking
     * deletes the user's rows for it; on success the list follows and
     * `onSave` is called, which `saved` reports.
     */
    method ToggleRole(db: Database, role: AppRole, checked: bool, fault: Option<DbError>) returns (saved: bool)
      requires Valid(db.tables)
      modifies this`loading, this`userRoles, db
      ensures Valid(db.tables)
      ensures saved <==> userId.Some? && fault.None?
      ensures userId.None? ==> db.tables == old(db.tables) && userRoles == old(userRoles) && loading == old(loading)
      ensures userId.Some? ==> !loading
      ensures userId.Some? && checked ==>
        exists id | id !in old(db.tables).roles :: db.tables == AfterInsertRole(old(db.tables), id, RoleInsert(userId.value, role), fault).after
      ensures userId.Some? && !checked ==>
        db.tables == AfterDeleteRoles(old(db.tables), userId.value, role, fault).after
      ensures userRoles == if !saved then old(userRoles)
        else if checked then old(userRoles) + [role]
        else WithoutRole(old(userRoles), role)
      ensures saved ==> (Checked(role) <==> checked)
      ensures old(InSync(db.tables)) ==> InSync(db.tables)
    {
      saved := false;
      if userId.None? {
        return;
      }
      var u := userId.value;
      ghost var before := db.tables;
      loading := true;
      if checked {
        var id, error := db.InsertRole(RoleInsert(u, role), fault);
        if error.None? {
          if MirrorsStore(userRoles, before, u) {
            GrantKeepsMirror(userRoles, before, id, u, role);
          }
          userRoles := userRoles + [role];
          saved := true;
        }
      } else {
        var error := db.DeleteRoles(u, role, fault);
        if error.None? {
          if MirrorsStore(userRoles, before, u) {
            RevokeKeepsMirror(userRoles, before, u, role);
          }
          userRoles := WithoutRole(userRoles, role);
          saved := true;
        }
      }
      loading := false;
    }
  }
}
