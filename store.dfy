/**
 * The hosted Postgres store the views talk to, reduced to an in-memory value:
 * four tables keyed by row id, a clock for `created_at`, the constraints the
 * client depends on (the foreign key `job_applications.job_id -> jobs.id`, the
 * uniqueness of an application per job and applicant, one profile per user),
 * and one function per kind of write the client issues.
 *
 * A write takes a `fault`: `Some(e)` is a failure the client cannot foresee
 * (network, row-level policy, a dropped connection) and leaves every table as
 * it was; `None` lets the store carry the write out, or refuse it with the
 * SQLSTATE of a violated constraint. Reads are not functions of the store: a
 * view receives the store's answer, and the `...Answer` predicates say which
 * answers a truthful store can give.
 */
module Store {
  import opened Wrappers
  import opened Schema
  import Lists

  /** The error object of a failed call, reduced to its SQLSTATE `code`. */
  datatype DbError = DbError(code: string)

  /** SQLSTATE `unique_violation`. */
  const UniqueViolation: string := "23505"
  /** SQLSTATE `foreign_key_violation`. */
  const ForeignKeyViolation: string := "23503"
  /** SQLSTATE `invalid_text_representation`: a value that is not a key of an enumeration. */
  const InvalidTextRepresentation: string := "22P02"

  /** The contents of the store. */
  datatype Tables = Tables(
    jobs: map<Id, Job>,
    applications: map<Id, JobApplication>,
    profiles: map<Id, Profile>,
    roles: map<Id, UserRole>,
    clock: nat)

  /** Some stored row grants `role` to `userId`. */
  predicate HasRole(t: Tables, userId: Id, role: AppRole) {
    exists k | k in t.roles :: t.roles[k].userId == userId && t.roles[k].role == role
  }

  /** Some application of `applicantId` to `jobId` is stored. */
  predicate HasApplication(t: Tables, jobId: Id, applicantId: Id) {
    exists k | k in t.applications :: t.applications[k].jobId == jobId && t.applications[k].applicantId == applicantId
  }

  /** Some application refers to job `jobId`. */
  predicate IsReferenced(t: Tables, jobId: Id) {
    exists k | k in t.applications :: t.applications[k].jobId == jobId
  }

  /** Each application refers to a stored job (`job_applications_job_id_fkey`). */
  ghost predicate ReferencesResolve(t: Tables) {
    forall k | k in t.applications :: t.applications[k].jobId in t.jobs
  }

  /** At most one application per job and applicant. */
  ghost predicate OneApplicationPerPair(t: Tables) {
    forall a, b | a in t.applications && b in t.applications
        && t.applications[a].jobId == t.applications[b].jobId
        && t.applications[a].applicantId == t.applications[b].applicantId :: a == b
  }

  /** At most one profile per user. */
  ghost predicate OneProfilePerUser(t: Tables) {
    forall a, b | a in t.profiles && b in t.profiles && t.profiles[a].userId == t.profiles[b].userId :: a == b
  }

  /** Every row is stored under its own id. */
  ghost predicate KeyedById(t: Tables) {
    (forall k | k in t.jobs :: t.jobs[k].id == k)
    && (forall k | k in t.applications :: t.applications[k].id == k)
    && (forall k | k in t.profiles :: t.profiles[k].id == k)
    && (forall k | k in t.roles :: t.roles[k].id == k)
  }

  /** The constraints the store enforces. */
  ghost predicate Valid(t: Tables) {
    KeyedById(t) && ReferencesResolve(t) && OneApplicationPerPair(t) && OneProfilePerUser(t)
  }

  /** What a write leaves behind: the tables after it and the error the client receives. */
  datatype Written = Written(after: Tables, error: Option<DbError>)

  /** The row an insert creates, with the column defaults filled in. */
  function NewJob(id: Id, ins: JobInsert, now: nat): (j: Job)
    ensures j.id == id && j.createdAt == now
    ensures j.title == ins.title && j.description == ins.description && j.budget == ins.budget
    ensures j.category == ins.category && j.province == ins.province && j.publisherId == ins.publisherId
    ensures ins.status.None? ==> j.status == DefaultJobStatus
    ensures ins.assignedTo.None? ==> j.assignedTo.None?
    ensures ins.estimatedDate.None? ==> j.estimatedDate.None?
  {
    Job(id, ins.title, ins.description, ins.category, ins.province, ins.budget,
        ins.status.GetOr(DefaultJobStatus), ins.estimatedDate.GetOr(None), ins.publisherId,
        ins.assignedTo.GetOr(None), now)
  }

  /** `insert` into `jobs`. */
  function AfterInsertJob(t: Tables, id: Id, ins: JobInsert, fault: Option<DbError>): Written
    requires id !in t.jobs
  {
    if fault.Some? then Written(t, fault)
    else Written(t.(jobs := t.jobs[id := NewJob(id, ins, t.clock)], clock := t.clock + 1), None)
  }

  /** `update(patch).eq("id", id)` on `jobs`: no matching row is not an error. */
  function AfterUpdateJob(t: Tables, id: Id, patch: JobPatch, fault: Option<DbError>): Written {
    if fault.Some? then Written(t, fault)
    else if id in t.jobs then Written(t.(jobs := t.jobs[id := PatchJob(t.jobs[id], patch)]), None)
    else Written(t, None)
  }

  /** `delete().eq("id", id)` on `jobs`, refused while an application still refers to the job. */
  function AfterDeleteJob(t: Tables, id: Id, fault: Option<DbError>): Written {
    if fault.Some? then Written(t, fault)
    else if IsReferenced(t, id) then Written(t, Some(DbError(ForeignKeyViolation)))
    else Written(t.(jobs := t.jobs - {id}), None)
  }

  /** `delete().eq("job_id", jobId)` on `job_applications`. */
  function AfterDeleteApplicationsOf(t: Tables, jobId: Id, fault: Option<DbError>): Written {
    if fault.Some? then Written(t, fault)
    else Written(t.(applications := map k | k in t.applications && t.applications[k].jobId != jobId :: t.applications[k]), None)
  }

  /** The row an application insert creates; its status takes the column default. */
  function NewApplication(id: Id, ins: ApplicationInsert, now: nat): JobApplication {
    JobApplication(id, ins.jobId, ins.applicantId, ins.message, Some(DefaultApplicationStatus), now)
  }

  /** `insert` into `job_applications`, checked against the foreign key and the uniqueness constraint. */
  function AfterInsertApplication(t: Tables, id: Id, ins: ApplicationInsert, fault: Option<DbError>): Written
    requires id !in t.applications
  {
    if fault.Some? then Written(t, fault)
    else if ins.jobId !in t.jobs then Written(t, Some(DbError(ForeignKeyViolation)))
    else if HasApplication(t, ins.jobId, ins.applicantId) then Written(t, Some(DbError(UniqueViolation)))
    else Written(t.(applications := t.applications[id := NewApplication(id, ins, t.clock)], clock := t.clock + 1), None)
  }

  /** `update({ status }).eq("id", id)` on `job_applications`. */
  function AfterUpdateApplicationStatus(t: Tables, id: Id, status: string, fault: Option<DbError>): Written {
    if fault.Some? then Written(t, fault)
    else if id in t.applications then
      Written(t.(applications := t.applications[id := t.applications[id].(status := Some(status))]), None)
    else Written(t, None)
  }

  /** The column an update of `profiles` is matched on. */
  datatype ProfileKey = ById(id: Id) | ByUserId(userId: Id)

  predicate Targets(p: Profile, key: ProfileKey) {
    match key
    case ById(id) => p.id == id
    case ByUserId(u) => p.userId == u
  }

  /** `update(patch).eq(column, value)` on `profiles`: every matching row is patched. */
  function AfterUpdateProfiles(t: Tables, key: ProfileKey, patch: ProfilePatch, fault: Option<DbError>): Written {
    if fault.Some? then Written(t, fault)
    else Written(t.(profiles := map k | k in t.profiles ::
                      if Targets(t.profiles[k], key) then PatchProfile(t.profiles[k], patch) else t.profiles[k]), None)
  }

  /** `insert` into `user_roles`. */
  function AfterInsertRole(t: Tables, id: Id, ins: RoleInsert, fault: Option<DbError>): Written
    requires id !in t.roles
  {
    if fault.Some? then Written(t, fault)
    else Written(t.(roles := t.roles[id := UserRole(id, ins.userId, ins.role, t.clock)], clock := t.clock + 1), None)
  }

  /** `delete().eq("user_id", userId).eq("role", role)` on `user_roles`. */
  function AfterDeleteRoles(t: Tables, userId: Id, role: AppRole, fault: Option<DbError>): Written {
    if fault.Some? then Written(t, fault)
    else Written(t.(roles := map k | k in t.roles && !(t.roles[k].userId == userId && t.roles[k].role == role) :: t.roles[k]), None)
  }

  /*
   * Every write keeps the constraints, and a failed write changes nothing.
   */

  lemma {:induction false} InsertJobKeepsValid(t: Tables, id: Id, ins: JobInsert, fault: Option<DbError>)
    requires Valid(t) && id !in t.jobs
    ensures Valid(AfterInsertJob(t, id, ins, fault).after)
    ensures AfterInsertJob(t, id, ins, fault).error.Some? ==> AfterInsertJob(t, id, ins, fault).after == t
  {
  }

  lemma {:induction false} UpdateJobKeepsValid(t: Tables, id: Id, patch: JobPatch, fault: Option<DbError>)
    requires Valid(t)
    ensures Valid(AfterUpdateJob(t, id, patch, fault).after)
    ensures AfterUpdateJob(t, id, patch, fault).after.jobs.Keys == t.jobs.Keys
  {
  }

  /** A delete the store carries out never leaves an application pointing at a missing job. */
  lemma {:induction false} DeleteJobKeepsValid(t: Tables, id: Id, fault: Option<DbError>)
    requires Valid(t)
    ensures Valid(AfterDeleteJob(t, id, fault).after)
    ensures AfterDeleteJob(t, id, fault).error.None? ==> id !in AfterDeleteJob(t, id, fault).after.jobs
  {
    var w := AfterDeleteJob(t, id, fault);
    if w.error.None? && fault.None? {
      forall k | k in t.applications ensures t.applications[k].jobId in w.after.jobs {
        assert t.applications[k].jobId != id;
      }
    }
  }

  lemma {:induction false} DeleteApplicationsKeepsValid(t: Tables, jobId: Id, fault: Option<DbError>)
    requires Valid(t)
    ensures Valid(AfterDeleteApplicationsOf(t, jobId, fault).after)
    ensures AfterDeleteApplicationsOf(t, jobId, fault).error.None? ==> !IsReferenced(AfterDeleteApplicationsOf(t, jobId, fault).after, jobId)
  {
  }

  lemma {:induction false} InsertApplicationKeepsValid(t: Tables, id: Id, ins: ApplicationInsert, fault: Option<DbError>)
    requires Valid(t) && id !in t.applications
    ensures Valid(AfterInsertApplication(t, id, ins, fault).after)
  {
    var w := AfterInsertApplication(t, id, ins, fault);
    if w.error.None? {
      var apps := w.after.applications;
      forall a, b | a in apps && b in apps && apps[a].jobId == apps[b].jobId && apps[a].applicantId == apps[b].applicantId
        ensures a == b
      {

      }
    }
  }

  lemma {:induction false} UpdateApplicationStatusKeepsValid(t: Tables, id: Id, status: string, fault: Option<DbError>)
    requires Valid(t)
    ensures Valid(AfterUpdateApplicationStatus(t, id, status, fault).after)
  {
    var w := AfterUpdateApplicationStatus(t, id, status, fault);
    if w.error.None? && id in t.applications {
      var apps := w.after.applications;
      forall a, b | a in apps && b in apps && apps[a].jobId == apps[b].jobId && apps[a].applicantId == apps[b].applicantId
        ensures a == b
      {
        assert t.applications[a].jobId == apps[a].jobId && t.applications[a].applicantId == apps[a].applicantId;
        assert t.applications[b].jobId == apps[b].jobId && t.applications[b].applicantId == apps[b].applicantId;
      }
    }
  }

  lemma {:induction false} UpdateProfilesKeepsValid(t: Tables, key: ProfileKey, patch: ProfilePatch, fault: Option<DbError>)
    requires Valid(t)
    ensures Valid(AfterUpdateProfiles(t, key, patch, fault).after)
    ensures AfterUpdateProfiles(t, key, patch, fault).after.profiles.Keys == t.profiles.Keys
  {
    var w := AfterUpdateProfiles(t, key, patch, fault);
    if w.error.None? {
      var ps := w.after.profiles;
      forall a, b | a in ps && b in ps && ps[a].userId == ps[b].userId ensures a == b {
        assert ps[a].userId == t.profiles[a].userId && ps[b].userId == t.profiles[b].userId;
      }
    }
  }

  lemma {:induction false} InsertRoleKeepsValid(t: Tables, id: Id, ins: RoleInsert, fault: Option<DbError>)
    requires Valid(t) && id !in t.roles
    ensures Valid(AfterInsertRole(t, id, ins, fault).after)
  {
  }

  lemma {:induction false} DeleteRolesKeepsValid(t: Tables, userId: Id, role: AppRole, fault: Option<DbError>)
    requires Valid(t)
    ensures Valid(AfterDeleteRoles(t, userId, role, fault).after)
  {
  }

  /*
   * The outcomes the views depend on.
   */

  /** An application insert the store carries out is refused with 23505 exactly when the pair was already stored. */
  lemma {:induction false} DuplicateApplicationRefused(t: Tables, id: Id, ins: ApplicationInsert)
    requires Valid(t) && id !in t.applications && ins.jobId in t.jobs
    ensures AfterInsertApplication(t, id, ins, None).error == Some(DbError(UniqueViolation))
        <==> HasApplication(t, ins.jobId, ins.applicantId)
    ensures HasApplication(AfterInsertApplication(t, id, ins, None).after, ins.jobId, ins.applicantId)
  {
    var w := AfterInsertApplication(t, id, ins, None);
    if !HasApplication(t, ins.jobId, ins.applicantId) {
      assert w.after.applications[id].jobId == ins.jobId;
    }
  }

  /** A job some application refers to cannot be deleted, and the refusal changes nothing. */
  lemma {:induction false} ReferencedJobNotDeleted(t: Tables, id: Id)
    requires IsReferenced(t, id)
    ensures AfterDeleteJob(t, id, None) == Written(t, Some(DbError(ForeignKeyViolation)))
  {
  }

  /** Once its applications are gone, deleting a job fails only by a fault. */
  lemma {:induction false} DeleteAfterApplicationsSucceeds(t: Tables, id: Id, fault: Option<DbError>)
    requires Valid(t)
    ensures var t1 := AfterDeleteApplicationsOf(t, id, None).after;
      AfterDeleteJob(t1, id, fault).error == fault
  {
    var t1 := AfterDeleteApplicationsOf(t, id, None).after;
    forall k | k in t1.applications ensures t1.applications[k].jobId != id {
    }
  }

  /** A fresh key: one longer than every key in use. */
  method FreshKey(used: set<string>) returns (k: string)
    ensures k !in used
  {
    var longest: nat := 0;
    var rest := used;
    while rest != {}
      invariant rest <= used
      invariant forall u | u in used && u !in rest :: |u| <= longest
      decreases |rest|
    {
      var u :| u in rest;
      if |u| > longest {
        longest := |u|;
      }
      rest := rest - {u};
    }
    k := seq(longest + 1, _ => 'k');
  }

  /*
   * Reads.
   */

  /** Sort order of a read: `order("created_at", { ascending: false })`, or none. */
  datatype Order = NewestFirst | Unordered

  /** `rows` is what a read of `universe` filtered by `keep` returns: each match once, and in order when asked. */
  ghost predicate Listing<R(!new)>(universe: set<R>, keep: R -> bool, stamp: R -> nat, order: Order, rows: seq<R>) {
    (forall r :: r in rows <==> r in universe && keep(r))
    && (forall i, j | 0 <= i < j < |rows| :: rows[i] != rows[j])
    && (order == NewestFirst ==> forall i, j | 0 <= i < j < |rows| :: stamp(rows[i]) >= stamp(rows[j]))
  }

  /** The columns of `jobs` the client filters on. */
  datatype JobColumn = StatusColumn | CategoryColumn | ProvinceColumn | PublisherColumn

  /** `.eq(column, value)`. */
  datatype JobFilter = Eq(column: JobColumn, value: string)

  /** A read of `jobs`: its equality filters and its order. */
  datatype JobQuery = JobQuery(filters: seq<JobFilter>, order: Order)

  /** The value of a column as the query compares it. */
  function ColumnValue(j: Job, c: JobColumn): string {
    match c
    case StatusColumn => JobStatusKey(j.status)
    case CategoryColumn => JobCategoryKey(j.category)
    case ProvinceColumn => ProvinceKey(j.province)
    case PublisherColumn => j.publisherId
  }

  /** The value can be cast to the column's type: enumeration columns accept only their keys. */
  predicate WellTyped(f: JobFilter) {
    match f.column
    case StatusColumn => ParseJobStatus(f.value).Some?
    case CategoryColumn => ParseJobCategory(f.value).Some?
    case ProvinceColumn => ParseProvince(f.value).Some?
    case PublisherColumn => true
  }

  predicate MatchesAll(j: Job, filters: seq<JobFilter>) {
    forall i | 0 <= i < |filters| :: ColumnValue(j, filters[i].column) == filters[i].value
  }

  /** Chained filters: a row matches both lists exactly when it matches their concatenation. */
  lemma MatchesAllAppend(j: Job, a: seq<JobFilter>, b: seq<JobFilter>)
    ensures MatchesAll(j, a + b) <==> MatchesAll(j, a) && MatchesAll(j, b)
  {
    if MatchesAll(j, a) && MatchesAll(j, b) {
      forall i | 0 <= i < |a + b| ensures ColumnValue(j, (a + b)[i].column) == (a + b)[i].value {
        if i >= |a| {
          assert (a + b)[i] == b[i - |a|];
        }
      }
    }
    if MatchesAll(j, a + b) {
      forall i | 0 <= i < |a| ensures ColumnValue(j, a[i].column) == a[i].value {
        assert (a + b)[i] == a[i];
      }
      forall i | 0 <= i < |b| ensures ColumnValue(j, b[i].column) == b[i].value {
        assert (a + b)[i + |a|] == b[i];
      }
    }
  }

  /** A truthful answer to a read of `jobs`: a filter that cannot be cast fails the read. */
  ghost predicate JobsAnswer(t: Tables, q: JobQuery, a: Result<seq<Job>, DbError>) {
    if exists i | 0 <= i < |q.filters| :: !WellTyped(q.filters[i]) then a.Failure?
    else a.Success? ==> Listing(t.jobs.Values, (j: Job) => MatchesAll(j, q.filters), (j: Job) => j.createdAt, q.order, a.value)
  }

  /** A truthful answer to `select().eq(column, value).maybeSingle()` on a unique column. */
  ghost predicate JobByIdAnswer(t: Tables, id: Id, a: Result<Option<Job>, DbError>) {
    a.Success? ==> a.value == (if id in t.jobs then Some(t.jobs[id]) else None)
  }

  /** A truthful answer to the read of one job's applications, newest first. */
  ghost predicate ApplicationsOfJobAnswer(t: Tables, jobId: Id, a: Result<seq<JobApplication>, DbError>) {
    a.Success? ==> Listing(t.applications.Values, (x: JobApplication) => x.jobId == jobId, (x: JobApplication) => x.createdAt, NewestFirst, a.value)
  }

  /** A truthful answer to the read of one applicant's application to one job. */
  ghost predicate ApplicationOfAnswer(t: Tables, jobId: Id, applicantId: Id, a: Result<Option<JobApplication>, DbError>) {
    a.Success? ==>
      (a.value.Some? <==> HasApplication(t, jobId, applicantId))
      && (a.value.Some? ==> a.value.value in t.applications.Values
                            && a.value.value.jobId == jobId && a.value.value.applicantId == applicantId)
  }

  /** A truthful answer to `.in("user_id", userIds)` on `profiles`. */
  ghost predicate ProfilesOfUsersAnswer(t: Tables, userIds: seq<Id>, a: Result<seq<Profile>, DbError>) {
    a.Success? ==> Listing(t.profiles.Values, (p: Profile) => p.userId in userIds, (p: Profile) => p.createdAt, Unordered, a.value)
  }

  /** A truthful answer to `.eq("user_id", userId).maybeSingle()` on `profiles`. */
  ghost predicate ProfileOfUserAnswer(t: Tables, userId: Id, a: Result<Option<Profile>, DbError>) {
    a.Success? ==>
      (a.value.Some? <==> exists k | k in t.profiles :: t.profiles[k].userId == userId)
      && (a.value.Some? ==> a.value.value in t.profiles.Values && a.value.value.userId == userId)
  }

  /** A truthful answer to the read of every profile, newest first. */
  ghost predicate AllProfilesAnswer(t: Tables, a: Result<seq<Profile>, DbError>) {
    a.Success? ==> Listing(t.profiles.Values, (p: Profile) => true, (p: Profile) => p.createdAt, NewestFirst, a.value)
  }

  /** A truthful answer to the read of every role row. */
  ghost predicate AllRolesAnswer(t: Tables, a: Result<seq<UserRole>, DbError>) {
    a.Success? ==> Listing(t.roles.Values, (r: UserRole) => true, (r: UserRole) => r.createdAt, Unordered, a.value)
  }

  /** A truthful answer to the read of one user's role rows. */
  ghost predicate RolesOfUserAnswer(t: Tables, userId: Id, a: Result<seq<UserRole>, DbError>) {
    a.Success? ==> Listing(t.roles.Values, (r: UserRole) => r.userId == userId, (r: UserRole) => r.createdAt, Unordered, a.value)
  }

  /** The pairs `[p.user_id, p]` of the fetched profiles. */
  function UserPairs(ps: seq<Profile>): (r: seq<(Id, Profile)>)
    ensures |r| == |ps| && forall i | 0 <= i < |ps| :: r[i] == (ps[i].userId, ps[i])
  {
    seq(|ps|, i requires 0 <= i < |ps| => (ps[i].userId, ps[i]))
  }

  /** `new Map(profiles.map(p => [p.user_id, p]))`: the fetched profiles keyed by user. */
  function ProfilesByUser(ps: seq<Profile>): map<Id, Profile> {
    Lists.ToMap(UserPairs(ps))
  }

  /** `p` is the stored profile of user `u` (there is at most one). */
  ghost predicate IsProfileOf(t: Tables, u: Id, p: Profile) {
    p in t.profiles.Values && p.userId == u
  }

  /** The fetched profiles are stored profiles of the requested users, and every such profile was fetched. */
  lemma {:induction false} FetchedProfiles(t: Tables, userIds: seq<Id>, ps: seq<Profile>, u: Id, p: Profile)
    requires ProfilesOfUsersAnswer(t, userIds, Success(ps)) && u in userIds
    ensures IsProfileOf(t, u, p) <==> p in ps && p.userId == u
  {
  }

  /**
   * Looking a user up in the map built from a truthful `.in("user_id", ...)`
   * read finds exactly that user's stored profile, and finds nothing when
   * the user has none.
   */
  lemma {:induction false} ProfilesByUserFinds(t: Tables, userIds: seq<Id>, ps: seq<Profile>, u: Id)
    requires OneProfilePerUser(t) && ProfilesOfUsersAnswer(t, userIds, Success(ps)) && u in userIds
    ensures u in ProfilesByUser(ps) <==> exists p :: IsProfileOf(t, u, p)
    ensures u in ProfilesByUser(ps) ==> IsProfileOf(t, u, ProfilesByUser(ps)[u])
  {
    var pairs := UserPairs(ps);
    if exists p :: IsProfileOf(t, u, p) {
      var p :| IsProfileOf(t, u, p);
      FetchedProfiles(t, userIds, ps, u, p);
      var i :| 0 <= i < |ps| && ps[i] == p;
      assert Lists.Keys(pairs)[i] == u;
    }
    if u in ProfilesByUser(ps) {
      var i :| 0 <= i < |ps| && Lists.Keys(pairs)[i] == u;
      FetchedProfiles(t, userIds, ps, u, ps[i]);
      forall j | i < j < |ps| ensures pairs[j].0 != pairs[i].0 {
        if ps[j].userId == u {
          FetchedProfiles(t, userIds, ps, u, ps[j]);
        }
      }
      Lists.ToMapLastWins(pairs, i);
    }
  }

  /** The `first_name, last_name` projection the views select from `profiles`. */
  datatype PersonName = PersonName(firstName: string, lastName: string)

  function NameOf(p: Profile): PersonName {
    PersonName(p.firstName, p.lastName)
  }

  /**
   * The store as the client sees it: one object whose methods are the calls
   * the views make. Ids are generated here, as the store's column default does.
   */
  class Database {
    var tables: Tables

    constructor (t: Tables)
      ensures tables == t
    {
      tables := t;
    }

    method InsertJob(ins: JobInsert, fault: Option<DbError>) returns (id: Id, error: Option<DbError>)
      requires Valid(tables)
      modifies this
      ensures Valid(tables)
      ensures id !in old(tables).jobs && Written(tables, error) == AfterInsertJob(old(tables), id, ins, fault)
    {
      id := FreshKey(tables.jobs.Keys);
      InsertJobKeepsValid(tables, id, ins, fault);
      var w := AfterInsertJob(tables, id, ins, fault);
      tables, error := w.after, w.error;
    }

    method UpdateJob(id: Id, patch: JobPatch, fault: Option<DbError>) returns (error: Option<DbError>)
      requires Valid(tables)
      modifies this
      ensures Valid(tables)
      ensures Written(tables, error) == AfterUpdateJob(old(tables), id, patch, fault)
    {
      UpdateJobKeepsValid(tables, id, patch, fault);
      var w := AfterUpdateJob(tables, id, patch, fault);
      tables, error := w.after, w.error;
    }

    method DeleteJob(id: Id, fault: Option<DbError>) returns (error: Option<DbError>)
      requires Valid(tables)
      modifies this
      ensures Valid(tables)
      ensures Written(tables, error) == AfterDeleteJob(old(tables), id, fault)
    {
      DeleteJobKeepsValid(tables, id, fault);
      var w := AfterDeleteJob(tables, id, fault);
      tables, error := w.after, w.error;
    }

    method DeleteApplicationsOf(jobId: Id, fault: Option<DbError>) returns (error: Option<DbError>)
      requires Valid(tables)
      modifies this
      ensures Valid(tables)
      ensures Written(tables, error) == AfterDeleteApplicationsOf(old(tables), jobId, fault)
    {
      DeleteApplicationsKeepsValid(tables, jobId, fault);
      var w := AfterDeleteApplicationsOf(tables, jobId, fault);
      tables, error := w.after, w.error;
    }

    method InsertApplication(ins: ApplicationInsert, fault: Option<DbError>) returns (id: Id, error: Option<DbError>)
      requires Valid(tables)
      modifies this
      ensures Valid(tables)
      ensures id !in old(tables).applications
      ensures Written(tables, error) == AfterInsertApplication(old(tables), id, ins, fault)
    {
      id := FreshKey(tables.applications.Keys);
      InsertApplicationKeepsValid(tables, id, ins, fault);
      var w := AfterInsertApplication(tables, id, ins, fault);
      tables, error := w.after, w.error;
    }

    method UpdateApplicationStatus(id: Id, status: string, fault: Option<DbError>) returns (error: Option<DbError>)
      requires Valid(tables)
      modifies this
      ensures Valid(tables)
      ensures Written(tables, error) == AfterUpdateApplicationStatus(old(tables), id, status, fault)
    {
      UpdateApplicationStatusKeepsValid(tables, id, status, fault);
      var w := AfterUpdateApplicationStatus(tables, id, status, fault);
      tables, error := w.after, w.error;
    }

    method UpdateProfiles(key: ProfileKey, patch: ProfilePatch, fault: Option<DbError>) returns (error: Option<DbError>)
      requires Valid(tables)
      modifies this
      ensures Valid(tables)
      ensures Written(tables, error) == AfterUpdateProfiles(old(tables), key, patch, fault)
    {
      UpdateProfilesKeepsValid(tables, key, patch, fault);
      var w := AfterUpdateProfiles(tables, key, patch, fault);
      tables, error := w.after, w.error;
    }

    method InsertRole(ins: RoleInsert, fault: Option<DbError>) returns (id: Id, error: Option<DbError>)
      requires Valid(tables)
      modifies this
      ensures Valid(tables)
      ensures id !in old(tables).roles
      ensures Written(tables, error) == AfterInsertRole(old(tables), id, ins, fault)
    {
      id := FreshKey(tables.roles.Keys);
      InsertRoleKeepsValid(tables, id, ins, fault);
      var w := AfterInsertRole(tables, id, ins, fault);
      tables, error := w.after, w.error;
    }

    method DeleteRoles(userId: Id, role: AppRole, fault: Option<DbError>) returns (error: Option<DbError>)
      requires Valid(tables)
      modifies this
      ensures Valid(tables)
      ensures Written(tables, error) == AfterDeleteRoles(old(tables), userId, role, fault)
    {
      DeleteRolesKeepsValid(tables, userId, role, fault);
      var w := AfterDeleteRoles(tables, userId, role, fault);
      tables, error := w.after, w.error;
    }
  }
}
