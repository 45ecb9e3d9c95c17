/**
 * The admin's table of users (`src/pages/admin/AdminUsers.tsx`): the fetch
 * of every profile and every role, the map of each user's roles, the
 * suspend / activate toggle, and the search box.
 */
module AdminUsers {
  import opened Wrappers
  import opened Schema
  import opened Store
  import opened Text
  import Lists

  /** The roles of user `u` among `rows`, in the order of the rows. */
  function RolesOf(rows: seq<UserRole>, u: Id): seq<AppRole> {
    if rows == [] then []
    else
      var last := rows[|rows| - 1];
      RolesOf(rows[..|rows| - 1], u) + (if last.userId == u then [last.role] else [])
  }

  /** A role is listed for `u` exactly when some row grants it to `u`. */
  lemma {:induction false} RolesOfMeaning(rows: seq<UserRole>, u: Id, role: AppRole)
    ensures role in RolesOf(rows, u) <==> exists j | 0 <= j < |rows| :: rows[j].userId == u && rows[j].role == role
  {
    if rows != [] {
      var init := rows[..|rows| - 1];
      RolesOfMeaning(init, u, role);
      if exists j | 0 <= j < |init| :: init[j].userId == u && init[j].role == role {
        var j :| 0 <= j < |init| && init[j].userId == u && init[j].role == role;
        assert rows[j] == init[j];
      }
      if exists j | 0 <= j < |rows| :: rows[j].userId == u && rows[j].role == role {
        var j :| 0 <= j < |rows| && rows[j].userId == u && rows[j].role == role;
        if j < |init| {
          assert init[j] == rows[j];
        }
      }
    }
  }

  /** A user none of whose rows is present has no roles. */
  lemma {:induction false} RolesOfAbsent(rows: seq<UserRole>, u: Id)
    requires forall j | 0 <= j < |rows| :: rows[j].userId != u
    ensures RolesOf(rows, u) == []
  {
    if rows != [] {
      RolesOfAbsent(rows[..|rows| - 1], u);
    }
  }

  /** With a truthful read of every role, the map lists for each user exactly the roles the store grants. */
  lemma {:induction false} RolesFromStore(t: Tables, rows: seq<UserRole>, u: Id, role: AppRole)
    requires AllRolesAnswer(t, Success(rows))
    ensures role in RolesOf(rows, u) <==> HasRole(t, u, role)
  {
    RolesOfMeaning(rows, u, role);
    if exists k | k in t.roles :: t.roles[k].userId == u && t.roles[k].role == role {
      var k :| k in t.roles && t.roles[k].userId == u && t.roles[k].role == role;
      assert t.roles[k] in rows;
    }
    if exists j | 0 <= j < |rows| :: rows[j].userId == u && rows[j].role == role {
      var j :| 0 <= j < |rows| && rows[j].userId == u && rows[j].role == role;
      assert rows[j] in rows;
    }
  }

  /**
   * The `forEach` that builds `rolesMap`: a user is a key exactly when some
   * row names it, and its list holds its roles in the order of the rows.
   */
  method BuildRolesMap(rows: seq<UserRole>) returns (m: map<Id, seq<AppRole>>)
    ensures forall u :: u in m <==> exists j | 0 <= j < |rows| :: rows[j].userId == u
    ensures forall u | u in m :: m[u] == RolesOf(rows, u)
  {
    m := map[];
    var i := 0;
    while i < |rows|
      invariant 0 <= i <= |rows|
      invariant forall u :: u in m <==> exists j | 0 <= j < i :: rows[j].userId == u
      invariant forall u | u in m :: m[u] == RolesOf(rows[..i], u)
    {
      var r := rows[i];
      RolesOfStep(rows, i);
      if r.userId in m {
        m := m[r.userId := m[r.userId] + [r.role]];
      } else {
        RolesOfAbsent(rows[..i], r.userId);
        m := m[r.userId := [r.role]];
      }
      i := i + 1;
    }
    assert rows[..|rows|] == rows;
  }

  /** Taking one more row appends that row's role to its user's list and to no other. */
  lemma RolesOfStep(rows: seq<UserRole>, i: nat)
    requires i < |rows|
    ensures forall u :: RolesOf(rows[..i + 1], u) == RolesOf(rows[..i], u) + (if rows[i].userId == u then [rows[i].role] else [])
  {
    assert rows[..i + 1][..i] == rows[..i];
  }

  /** `rolesMap.get(u)` lists `role`. */
  predicate ListsRole(m: map<Id, seq<AppRole>>, u: Id, role: AppRole) {
    u in m && role in m[u]
  }

  /**
   * The map built from the role read grants a user a role exactly when the
   * store does; when that read failed, it grants nothing.
   */
  lemma {:induction false} RolesMapFromStore(t: Tables, rolesAnswer: Result<seq<UserRole>, DbError>, m: map<Id, seq<AppRole>>)
    requires AllRolesAnswer(t, rolesAnswer)
    requires var rows := if rolesAnswer.Success? then rolesAnswer.value else [];
      (forall u :: u in m <==> exists j | 0 <= j < |rows| :: rows[j].userId == u)
      && (forall u | u in m :: m[u] == RolesOf(rows, u))
    ensures forall u, role :: ListsRole(m, u, role) <==> rolesAnswer.Success? && HasRole(t, u, role)
  {
    var rows := if rolesAnswer.Success? then rolesAnswer.value else [];
    forall u, role ensures ListsRole(m, u, role) <==> rolesAnswer.Success? && HasRole(t, u, role) {
      RolesOfMeaning(rows, u, role);
      if rolesAnswer.Success? {
        RolesFromStore(t, rows, u, role);
      }
    }
  }

  /** `user.account_status === "active" ? "suspended" : "active"`. */
  function NextStatus(s: Option<AccountStatus>): (r: AccountStatus)
    ensures r != Pending
    ensures r == Suspended <==> s == Some(Active)
  {
    if s == Some(Active) then Suspended else Active
  }

  /** Toggling twice restores an active or suspended user; a pending one ends suspended. */
  lemma ToggleTwice(s: AccountStatus)
    ensures s != Pending ==> NextStatus(Some(NextStatus(Some(s)))) == s
    ensures s == Pending ==> NextStatus(Some(NextStatus(Some(s)))) == Suspended
  {
  }

  /** `filteredUsers`: first name, last name, e-mail or, when present, DNI/NIE contains the query. */
  predicate UserShown(p: Profile, search: string) {
    var q := ToLower(search);
    Includes(ToLower(p.firstName), q)
    || Includes(ToLower(p.lastName), q)
    || Includes(ToLower(p.email), q)
    || (p.dniNie.Some? && Includes(ToLower(p.dniNie.value), q))
  }

  function FilteredUsers(users: seq<Profile>, search: string): (r: seq<Profile>)
    ensures forall p :: p in r <==> p in users && UserShown(p, search)
  {
    Lists.Filter(users, (p: Profile) => UserShown(p, search))
  }

  /** An empty query lists every user, in order. */
  lemma {:induction false} EmptySearchShowsAll(users: seq<Profile>)
    ensures FilteredUsers(users, "") == users
  {
    forall i | 0 <= i < |users| ensures UserShown(users[i], "") {
      IncludesEmpty(ToLower(users[i].firstName));
    }
    Lists.FilterKeepsAll(users, (p: Profile) => UserShown(p, ""));
  }

  /** Searching for a user's e-mail address, in any case, finds that user. */
  lemma {:induction false} SearchByEmailFinds(users: seq<Profile>, p: Profile)
    requires p in users
    ensures p in FilteredUsers(users, p.email)
  {
    ToLowerIdempotent(p.email);
    IncludesSelf(ToLower(p.email));
  }

  /** `users.map(u => u.id === id ? { ...u, account_status: s } : u)`. */
  function WithAccountStatus(users: seq<Profile>, id: Id, s: AccountStatus): (r: seq<Profile>)
    ensures |r| == |users|
    ensures forall i | 0 <= i < |users| && users[i].id == id :: r[i] == users[i].(accountStatus := Some(s))
    ensures forall i | 0 <= i < |users| && users[i].id != id :: r[i] == users[i]
  {
    Lists.ReplaceWhere(users, (p: Profile) => p.id == id, (p: Profile) => p.(accountStatus := Some(s)))
  }

  /** The local list shows exactly the stored profiles, each as it is stored. */
  ghost predicate MirrorsProfiles(users: seq<Profile>, t: Tables) {
    (forall i | 0 <= i < |users| :: users[i].id in t.profiles && t.profiles[users[i].id] == users[i])
    && (forall k | k in t.profiles :: exists i | 0 <= i < |users| :: users[i].id == k)
  }

  /** A fetch from a truthful store lists every stored profile. */
  lemma {:induction false} FetchMirrorsProfiles(t: Tables, users: seq<Profile>)
    requires KeyedById(t)
    requires AllProfilesAnswer(t, Success(users))
    ensures MirrorsProfiles(users, t)
  {
    forall i | 0 <= i < |users| ensures users[i].id in t.profiles && t.profiles[users[i].id] == users[i] {
      assert users[i] in users;
    }
    forall k | k in t.profiles ensures exists i | 0 <= i < |users| :: users[i].id == k {
      assert t.profiles[k] in users;
      var i :| 0 <= i < |users| && users[i] == t.profiles[k];
    }
  }

  /** A status write the store accepted, mirrored locally, keeps the list mirroring the store. */
  lemma {:induction false} ToggleKeepsMirror(users: seq<Profile>, t: Tables, id: Id, s: AccountStatus)
    requires KeyedById(t)
    requires MirrorsProfiles(users, t)
    ensures MirrorsProfiles(WithAccountStatus(users, id, s), AfterUpdateProfiles(t, ById(id), AccountStatusPatch(s), None).after)
  {
    var r := WithAccountStatus(users, id, s);
    var t2 := AfterUpdateProfiles(t, ById(id), AccountStatusPatch(s), None).after;
    forall k | k in t.profiles
      ensures t2.profiles[k] == if k == id then t.profiles[k].(accountStatus := Some(s)) else t.profiles[k]
    {
      AccountStatusPatchOnlyStatus(t.profiles[k], s);
    }
    forall i | 0 <= i < |r| ensures r[i].id in t2.profiles && t2.profiles[r[i].id] == r[i] {
    }
    forall k | k in t2.profiles ensures exists i | 0 <= i < |r| :: r[i].id == k {
      var i :| 0 <= i < |users| && users[i].id == k;
      assert r[i].id == k;
    }
  }

  /** The page's state. */
  class AdminUsersPage {
    var users: seq<Profile>
    var userRoles: map<Id, seq<AppRole>>
    var loading: bool
    var searchQuery: string
    var editingUser: Option<Profile>
    var editDialogOpen: bool
    var rolesDialogOpen: bool
    var selectedUserId: Option<Id>
    var selectedUserName: string

    constructor ()
      ensures users == [] && userRoles == map[] && loading && searchQuery == ""
      ensures editingUser.None? && !editDialogOpen && !rolesDialogOpen
      ensures selectedUserId.None? && selectedUserName == ""
    {
      users, userRoles, loading, searchQuery := [], map[], true, "";
      editingUser, editDialogOpen, rolesDialogOpen := None, false, false;
      selectedUserId, selectedUserName := None, "";
    }

    /** The rows the table shows. */
    function Visible(): seq<Profile>
      reads this
    {
      FilteredUsers(users, searchQuery)
    }

    /**
     * `fetchUsers`, also run as both dialogs' `onSave`: a failed profile
     * read keeps the page as it was; otherwise the profiles replace the list
     * and the roles, or none when that read failed, rebuild the map.
     */
    method FetchUsers(db: Database, usersAnswer: Result<seq<Profile>, DbError>, rolesAnswer: Result<seq<UserRole>, DbError>)
      requires Valid(db.tables)
      requires AllProfilesAnswer(db.tables, usersAnswer)
      requires AllRolesAnswer(db.tables, rolesAnswer)
      modifies this`users, this`userRoles, this`loading
      ensures !loading
      ensures usersAnswer.Failure? ==> users == old(users) && userRoles == old(userRoles)
      ensures usersAnswer.Success? ==> users == usersAnswer.value && MirrorsProfiles(users, db.tables)
      ensures usersAnswer.Success? ==>
        forall u, role :: ListsRole(userRoles, u, role) <==> rolesAnswer.Success? && HasRole(db.tables, u, role)
    {
      if usersAnswer.Success? {
        users := usersAnswer.value;
        FetchMirrorsProfiles(db.tables, users);
        var rows := if rolesAnswer.Success? then rolesAnswer.value else [];
        var m := BuildRolesMap(rows);
        RolesMapFromStore(db.tables, rolesAnswer, m);
        userRoles := m;
      }
      loading := false;
    }

    /** `handleEditUser`. */
    method EditUser(p: Profile)
      modifies this`editingUser, this`editDialogOpen
      ensures editingUser == Some(p) && editDialogOpen
    {
      editingUser := Some(p);
      editDialogOpen := true;
    }

    /** `handleManageRoles`: the dialog is opened for the profile's user, titled with its full name. */
    method ManageRoles(p: Profile)
      modifies this`selectedUserId, this`selectedUserName, this`rolesDialogOpen
      ensures selectedUserId == Some(p.userId) && rolesDialogOpen
      ensures selectedUserName == p.firstName + " " + p.lastName
    {
      selectedUserId := Some(p.userId);
      selectedUserName := p.firstName + " " + p.lastName;
      rolesDialogOpen := true;
    }

    /**
     * `handleToggleStatus`: writes the next status to the profile with that
     * id, and on success rewrites that row alone.
     */
    method ToggleStatus(db: Database, p: Profile, fault: Option<DbError>)
      requires Valid(db.tables)
      modifies this`users, db
      ensures Valid(db.tables)
      ensures Written(db.tables, fault) == AfterUpdateProfiles(old(db.tables), ById(p.id), AccountStatusPatch(NextStatus(p.accountStatus)), fault)
      ensures users == if fault.None? then WithAccountStatus(old(users), p.id, NextStatus(p.accountStatus)) else old(users)
      ensures old(MirrorsProfiles(users, db.tables)) ==> MirrorsProfiles(users, db.tables)
    {
      ghost var before := db.tables;
      var s := NextStatus(p.accountStatus);
      var error := db.UpdateProfiles(ById(p.id), AccountStatusPatch(s), fault);
      if error.None? {
        users := WithAccountStatus(users, p.id, s);
        if MirrorsProfiles(old(users), before) {
          ToggleKeepsMirror(old(users), before, p.id, s);
        }
      }
    }
  }
}
