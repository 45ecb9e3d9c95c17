/**
 * The admin's dialog listing one job's applications
 * (`src/components/admin/ViewApplicationsDialog.tsx`): the read, run while
 * the dialog is open on a job, that attaches each applicant's name and
 * email, and the inline change of an application's free-text status.
 */
module ViewApplications {
  import opened Wrappers
  import opened Schema
  import opened Store
  import Lists

  /** The applicant columns the dialog reads: `first_name, last_name, email`. */
  datatype Applicant = Applicant(firstName: string, lastName: string, email: string)

  /** A row of the dialog: the stored application and its applicant, when the profile was found. */
  datatype ListedApplication = ListedApplication(app: JobApplication, applicant: Option<Applicant>)

  /** The keys of `APPLICATION_STATUSES`, the values the status select offers. */
  const ApplicationStatuses: seq<string> := ["pending", "accepted", "rejected"]

  /** The select offers exactly three statuses, each once; the column itself accepts any text. */
  lemma OfferedStatuses(s: string)
    ensures s in ApplicationStatuses <==> s == "pending" || s == "accepted" || s == "rejected"
    ensures Lists.NoDuplicates(ApplicationStatuses)
  {
  }

  /** The effect: the read runs only while the dialog is open on a job. */
  predicate ShouldFetch(open: bool, jobId: Option<Id>) {
    open && jobId.Some?
  }

  /** The applicant part of a profile. */
  function ApplicantOf(p: Profile): (a: Applicant)
    ensures a.firstName == p.firstName && a.lastName == p.lastName && a.email == p.email
  {
    Applicant(p.firstName, p.lastName, p.email)
  }

  /** `[...new Set(data.map(a => a.applicant_id))]`. */
  function ApplicantIds(rows: seq<JobApplication>): (ids: seq<Id>)
    ensures forall i | 0 <= i < |rows| :: rows[i].applicantId in ids
    ensures forall u | u in ids :: exists i | 0 <= i < |rows| :: rows[i].applicantId == u
    ensures Lists.NoDuplicates(ids)
  {
    var all := seq(|rows|, i requires 0 <= i < |rows| => rows[i].applicantId);
    var ids := Lists.Dedupe(all);
    assert forall i | 0 <= i < |rows| :: rows[i].applicantId == all[i] && all[i] in all && all[i] in ids;
    assert forall u | u in ids :: u in all;
    ids
  }

  /** `profilesMap.get(app.applicant_id) || null` for each application, in the order of the read. */
  function Attach(rows: seq<JobApplication>, byUser: map<Id, Profile>): (r: seq<ListedApplication>)
    ensures |r| == |rows|
    ensures forall i | 0 <= i < |rows| :: r[i].app == rows[i]
    ensures forall i | 0 <= i < |rows| :: r[i].applicant.Some? <==> rows[i].applicantId in byUser
  {
    seq(|rows|, i requires 0 <= i < |rows| =>
      ListedApplication(rows[i], if rows[i].applicantId in byUser then Some(ApplicantOf(byUser[rows[i].applicantId])) else None))
  }

  /** The map the read builds: the profile read's error is never looked at, so a failure gives no names. */
  function ApplicantMap(profilesAnswer: Result<seq<Profile>, DbError>): map<Id, Profile> {
    if profilesAnswer.Success? then ProfilesByUser(profilesAnswer.value) else map[]
  }

  /** The dialog lists exactly the stored applications to the job, each as it is stored. */
  ghost predicate MirrorsStore(apps: seq<ListedApplication>, t: Tables, jobId: Id) {
    (forall i | 0 <= i < |apps| ::
       apps[i].app.id in t.applications && t.applications[apps[i].app.id] == apps[i].app && apps[i].app.jobId == jobId)
    && (forall k | k in t.applications && t.applications[k].jobId == jobId ::
          exists i | 0 <= i < |apps| :: apps[i].app.id == k)
  }

  /** The applicant a row should carry: that of the stored profile of the applicant. */
  ghost predicate NamesApplicant(t: Tables, x: ListedApplication) {
    (x.applicant.Some? <==> exists p :: IsProfileOf(t, x.app.applicantId, p))
    && (x.applicant.Some? ==> exists p :: IsProfileOf(t, x.app.applicantId, p) && x.applicant.value == ApplicantOf(p))
  }

  /** A read from a truthful store lists every application to the job and no other, whatever applicants are attached. */
  lemma {:induction false} FetchMirrorsStore(t: Tables, jobId: Id, rows: seq<JobApplication>, byUser: map<Id, Profile>)
    requires KeyedById(t)
    requires ApplicationsOfJobAnswer(t, jobId, Success(rows))
    ensures MirrorsStore(Attach(rows, byUser), t, jobId)
  {
    var r := Attach(rows, byUser);
    forall i | 0 <= i < |r|
      ensures r[i].app.id in t.applications && t.applications[r[i].app.id] == r[i].app && r[i].app.jobId == jobId
    {
      assert rows[i] in rows;
    }
    forall k | k in t.applications && t.applications[k].jobId == jobId
      ensures exists i | 0 <= i < |r| :: r[i].app.id == k
    {
      assert t.applications[k] in rows;
      var i :| 0 <= i < |rows| && rows[i] == t.applications[k];
      assert r[i].app.id == k;
    }
  }

  /** When the profile read succeeded, each row carries its applicant's stored profile, or none if there is none. */
  lemma {:induction false} FetchNamesApplicants(t: Tables, rows: seq<JobApplication>, ps: seq<Profile>)
    requires OneProfilePerUser(t)
    requires ProfilesOfUsersAnswer(t, ApplicantIds(rows), Success(ps))
    ensures forall i | 0 <= i < |rows| :: NamesApplicant(t, Attach(rows, ProfilesByUser(ps))[i])
  {
    var r := Attach(rows, ProfilesByUser(ps));
    forall i | 0 <= i < |rows| ensures NamesApplicant(t, r[i]) {
      ProfilesByUserFinds(t, ApplicantIds(rows), ps, rows[i].applicantId);
    }
  }

  /** `applications.map(app => app.id === applicationId ? { ...app, status: newStatus } : app)`. */
  function WithStatus(apps: seq<ListedApplication>, appId: Id, s: string): (r: seq<ListedApplication>)
    ensures |r| == |apps|
    ensures forall i | 0 <= i < |apps| && apps[i].app.id == appId :: r[i] == apps[i].(app := apps[i].app.(status := Some(s)))
    ensures forall i | 0 <= i < |apps| && apps[i].app.id != appId :: r[i] == apps[i]
  {
    Lists.ReplaceWhere(apps, (x: ListedApplication) => x.app.id == appId,
                       (x: ListedApplication) => x.(app := x.app.(status := Some(s))))
  }

  /** A status change the store accepted leaves the dialog mirroring the store. */
  lemma {:induction false} StatusChangeKeepsMirror(apps: seq<ListedApplication>, t: Tables, jobId: Id, appId: Id, s: string)
    requires MirrorsStore(apps, t, jobId)
    ensures MirrorsStore(WithStatus(apps, appId, s), AfterUpdateApplicationStatus(t, appId, s, None).after, jobId)
  {
    var r := WithStatus(apps, appId, s);
    var t2 := AfterUpdateApplicationStatus(t, appId, s, None).after;
    if appId in t.applications {
      assert t2.applications == t.applications[appId := t.applications[appId].(status := Some(s))];
    } else {
      assert t2.applications == t.applications;
    }
    forall i | 0 <= i < |r|
      ensures r[i].app.id in t2.applications && t2.applications[r[i].app.id] == r[i].app && r[i].app.jobId == jobId
    {
    }
    forall k | k in t2.applications && t2.applications[k].jobId == jobId
      ensures exists i | 0 <= i < |r| :: r[i].app.id == k
    {
      assert t.applications[k].jobId == jobId;
      var i :| 0 <= i < |apps| && apps[i].app.id == k;
      assert r[i].app.id == k;
    }
  }

  /** The dialog's state, with the job and the open flag its owner passes in. */
  class ApplicationsDialog {
    var jobId: Option<Id>
    var open: bool
    var loading: bool
    var applications: seq<ListedApplication>

    constructor (j: Option<Id>, isOpen: bool)
      ensures jobId == j && open == isOpen && !loading && applications == []
    {
      jobId, open, loading, applications := j, isOpen, false, [];
    }

    /**
     * The jobs page passing another job or open flag: the list is kept
     * until a read for the new job succeeds, so a failed read leaves the
     * previous job's applications on show.
     */
    method ShowFor(j: Option<Id>, isOpen: bool)
      modifies this`jobId, this`open
      ensures jobId == j && open == isOpen
    {
      jobId, open := j, isOpen;
    }

    /** Every listed application belongs to the dialog's job and is as stored, and every application to it is listed. */
    ghost predicate InSync(t: Tables)
      reads this
    {
      jobId.Some? ==> MirrorsStore(applications, t, jobId.value)
    }

    /**
     * `fetchApplications`: with no job nothing happens; otherwise the
     * applications to the job are read newest first, each with its
     * applicant; a failed read keeps the list. Loading ends in every case.
     */
    method FetchApplications(db: Database, appsAnswer: Result<seq<JobApplication>, DbError>, profilesAnswer: Result<seq<Profile>, DbError>)
      requires Valid(db.tables)
      requires jobId.Some? ==> ApplicationsOfJobAnswer(db.tables, jobId.value, appsAnswer)
      requires jobId.Some? && appsAnswer.Success? ==>
        ProfilesOfUsersAnswer(db.tables, ApplicantIds(appsAnswer.value), profilesAnswer)
      modifies this`applications, this`loading
      ensures jobId.None? ==> applications == old(applications) && loading == old(loading)
      ensures jobId.Some? ==> !loading
      ensures applications == if jobId.Some? && appsAnswer.Success?
        then Attach(appsAnswer.value, ApplicantMap(profilesAnswer))
        else old(applications)
      ensures jobId.Some? && appsAnswer.Success? ==> InSync(db.tables)
      ensures jobId.Some? && appsAnswer.Success? && profilesAnswer.Success? ==>
        forall i | 0 <= i < |applications| :: NamesApplicant(db.tables, applications[i])
    {
      if jobId.None? {
        return;
      }
      loading := true;
      if appsAnswer.Success? {
        var rows := appsAnswer.value;
        applications := Attach(rows, ApplicantMap(profilesAnswer));
        FetchMirrorsStore(db.tables, jobId.value, rows, ApplicantMap(profilesAnswer));
        if profilesAnswer.Success? {
          FetchNamesApplicants(db.tables, rows, profilesAnswer.value);
        }
      }
      loading := false;
    }

    /** The effect on `[open, jobId]`: read while open on a job, otherwise nothing. */
    method OnOpenOrJobChange(db: Database, appsAnswer: Result<seq<JobApplication>, DbError>, profilesAnswer: Result<seq<Profile>, DbError>)
      requires Valid(db.tables)
      requires jobId.Some? ==> ApplicationsOfJobAnswer(db.tables, jobId.value, appsAnswer)
      requires jobId.Some? && appsAnswer.Success? ==>
        ProfilesOfUsersAnswer(db.tables, ApplicantIds(appsAnswer.value), profilesAnswer)
      modifies this`applications, this`loading
      ensures !ShouldFetch(open, jobId) ==> applications == old(applications) && loading == old(loading)
      ensures ShouldFetch(open, jobId) ==>
        (!loading && applications == if appsAnswer.Success? then Attach(appsAnswer.value, ApplicantMap(profilesAnswer)) else old(applications))
      ensures ShouldFetch(open, jobId) && appsAnswer.Success? ==> InSync(db.tables)
    {
      if ShouldFetch(open, jobId) {
        FetchApplications(db, appsAnswer, profilesAnswer);
      }
    }

    /** `handleStatusChange`: write the status, and on success rewrite that row alone; a failure keeps the list. */
    method ChangeStatus(db: Database, appId: Id, newStatus: string, fault: Option<DbError>)
      requires Valid(db.tables)
      modifies this`applications, db
      ensures Valid(db.tables)
      ensures db.tables == AfterUpdateApplicationStatus(old(db.tables), appId, newStatus, fault).after
      ensures applications == if fault.None? then WithStatus(old(applications), appId, newStatus) else old(applications)
      ensures old(InSync(db.tables)) ==> InSync(db.tables)
    {
      ghost var before := db.tables;
      var error := db.UpdateApplicationStatus(appId, newStatus, fault);
      if error.None? {
        if jobId.Some? && MirrorsStore(applications, before, jobId.value) {
          StatusChangeKeepsMirror(applications, before, jobId.value, appId, newStatus);
        }
        applications := WithStatus(applications, appId, newStatus);
      }
    }
  }
}
