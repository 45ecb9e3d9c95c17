/**
 * The admin's table of every job (`src/pages/admin/AdminJobs.tsx`): the fetch
 * that attaches each publisher's name, the inline status change, the
 * two-step delete, and the search / status / category filter.
 */
module AdminJobs {
  import opened Wrappers
  import opened Schema
  import opened Store
  import opened Text
  import Lists

  /** A row of the table: the stored job and its publisher's name, when the profile was found. */
  datatype ListedJob = ListedJob(job: Job, publisher: Option<PersonName>)

  /** The read behind the table: every job, newest first. */
  const AllJobsNewestFirst: JobQuery := JobQuery([], NewestFirst)

  /** `[...new Set(jobs.map(j => j.publisher_id))]`. */
  function PublisherIds(rows: seq<Job>): (ids: seq<Id>)
    ensures forall i | 0 <= i < |rows| :: rows[i].publisherId in ids
    ensures forall u | u in ids :: exists i | 0 <= i < |rows| :: rows[i].publisherId == u
    ensures Lists.NoDuplicates(ids)
  {
    var all := seq(|rows|, i requires 0 <= i < |rows| => rows[i].publisherId);
    var ids := Lists.Dedupe(all);
    assert forall i | 0 <= i < |rows| :: rows[i].publisherId == all[i] && all[i] in all && all[i] in ids;
    assert forall u | u in ids :: u in all;
    ids
  }

  /** `profilesMap.get(job.publisher_id)` for each job, in the order of the read. */
  function Attach(rows: seq<Job>, byUser: map<Id, Profile>): (r: seq<ListedJob>)
    ensures |r| == |rows|
    ensures forall i | 0 <= i < |rows| :: r[i].job == rows[i]
    ensures forall i | 0 <= i < |rows| :: r[i].publisher.Some? <==> rows[i].publisherId in byUser
  {
    seq(|rows|, i requires 0 <= i < |rows| =>
      ListedJob(rows[i], if rows[i].publisherId in byUser then Some(NameOf(byUser[rows[i].publisherId])) else None))
  }

  /** The map the fetch builds: empty when the profile read failed, whose error is not looked at. */
  function PublisherMap(profilesAnswer: Result<seq<Profile>, DbError>): map<Id, Profile> {
    if profilesAnswer.Success? then ProfilesByUser(profilesAnswer.value) else map[]
  }

  /** The local list shows exactly the stored jobs, each as it is stored. */
  ghost predicate MirrorsStore(jobs: seq<ListedJob>, t: Tables) {
    (forall i | 0 <= i < |jobs| :: jobs[i].job.id in t.jobs && t.jobs[jobs[i].job.id] == jobs[i].job)
    && (forall k | k in t.jobs :: exists i | 0 <= i < |jobs| :: jobs[i].job.id == k)
  }

  /** The publisher name a row should carry: that of the stored profile of the job's publisher. */
  ghost predicate NamesPublisher(t: Tables, x: ListedJob) {
    (x.publisher.Some? <==> exists p :: IsProfileOf(t, x.job.publisherId, p))
    && (x.publisher.Some? ==> exists p :: IsProfileOf(t, x.job.publisherId, p) && x.publisher.value == NameOf(p))
  }

  /** A fetch from a truthful store shows every stored job, as it is stored, whatever names are attached. */
  lemma {:induction false} FetchMirrorsStore(t: Tables, rows: seq<Job>, byUser: map<Id, Profile>)
    requires KeyedById(t)
    requires JobsAnswer(t, AllJobsNewestFirst, Success(rows))
    ensures MirrorsStore(Attach(rows, byUser), t)
  {
    var r := Attach(rows, byUser);
    forall i | 0 <= i < |r| ensures r[i].job.id in t.jobs && t.jobs[r[i].job.id] == r[i].job {
      assert rows[i] in rows;
    }
    forall k | k in t.jobs ensures exists i | 0 <= i < |r| :: r[i].job.id == k {
      assert MatchesAll(t.jobs[k], []);
      assert t.jobs[k] in rows;
      var i :| 0 <= i < |rows| && rows[i] == t.jobs[k];
      assert r[i].job.id == k;
    }
  }

  /** When the profile read succeeded, each row carries the name of its publisher's stored profile, or none if there is none. */
  lemma {:induction false} FetchNamesPublishers(t: Tables, rows: seq<Job>, ps: seq<Profile>)
    requires OneProfilePerUser(t)
    requires ProfilesOfUsersAnswer(t, PublisherIds(rows), Success(ps))
    ensures forall i | 0 <= i < |rows| :: NamesPublisher(t, Attach(rows, ProfilesByUser(ps))[i])
  {
    var r := Attach(rows, ProfilesByUser(ps));
    forall i | 0 <= i < |rows| ensures NamesPublisher(t, r[i]) {
      ProfilesByUserFinds(t, PublisherIds(rows), ps, rows[i].publisherId);
    }
  }

  /** `jobs.map(job => job.id === jobId ? { ...job, status: newStatus } : job)`. */
  function WithStatus(jobs: seq<ListedJob>, jobId: Id, s: JobStatus): (r: seq<ListedJob>)
    ensures |r| == |jobs|
    ensures forall i | 0 <= i < |jobs| && jobs[i].job.id == jobId :: r[i] == jobs[i].(job := jobs[i].job.(status := s))
    ensures forall i | 0 <= i < |jobs| && jobs[i].job.id != jobId :: r[i] == jobs[i]
  {
    Lists.ReplaceWhere(jobs, (x: ListedJob) => x.job.id == jobId, (x: ListedJob) => x.(job := x.job.(status := s)))
  }

  /** A status change the store accepted leaves the local list mirroring the store. */
  lemma {:induction false} StatusChangeKeepsMirror(jobs: seq<ListedJob>, t: Tables, jobId: Id, s: JobStatus)
    requires MirrorsStore(jobs, t)
    ensures MirrorsStore(WithStatus(jobs, jobId, s), AfterUpdateJob(t, jobId, StatusPatch(s), None).after)
  {
    var r := WithStatus(jobs, jobId, s);
    var t2 := AfterUpdateJob(t, jobId, StatusPatch(s), None).after;
    if jobId in t.jobs {
      StatusPatchOnlyStatus(t.jobs[jobId], s);
      assert t2.jobs == t.jobs[jobId := t.jobs[jobId].(status := s)];
    } else {
      assert t2.jobs == t.jobs;
    }
    forall i | 0 <= i < |r| ensures r[i].job.id in t2.jobs && t2.jobs[r[i].job.id] == r[i].job {
    }
    forall k | k in t2.jobs ensures exists i | 0 <= i < |r| :: r[i].job.id == k {
      var i :| 0 <= i < |jobs| && jobs[i].job.id == k;
      assert r[i].job.id == k;
    }
  }

  /** `jobs.filter(j => j.id !== jobToDelete.id)`. */
  function Without(jobs: seq<ListedJob>, jobId: Id): (r: seq<ListedJob>)
    ensures forall x :: x in r <==> x in jobs && x.job.id != jobId
  {
    Lists.Filter(jobs, (x: ListedJob) => x.job.id != jobId)
  }

  /** Removing a job keeps the other rows in their order. */
  lemma WithoutKeepsOrder(jobs: seq<ListedJob>, jobId: Id)
    ensures Lists.SubsequenceOf(Without(jobs, jobId), jobs)
  {
    Lists.FilterIsSubsequence(jobs, (x: ListedJob) => x.job.id != jobId);
  }

  /**
   * The two writes of a delete: the job's applications, whose result is not
   * looked at, then the job. The job is gone exactly when the second write
   * met no fault and nothing still referred to the job.
   */
  function DeleteWrites(t: Tables, jobId: Id, appsFault: Option<DbError>, jobFault: Option<DbError>): Written {
    AfterDeleteJob(AfterDeleteApplicationsOf(t, jobId, appsFault).after, jobId, jobFault)
  }

  /** The delete succeeds exactly when the job write met no fault and the applications are gone. */
  lemma {:induction false} DeleteOutcome(t: Tables, jobId: Id, appsFault: Option<DbError>, jobFault: Option<DbError>)
    requires Valid(t)
    ensures DeleteWrites(t, jobId, appsFault, jobFault).error.None?
        <==> jobFault.None? && (appsFault.None? || !IsReferenced(t, jobId))
    ensures DeleteWrites(t, jobId, appsFault, jobFault).error.None?
        ==> DeleteWrites(t, jobId, appsFault, jobFault).after.jobs == t.jobs - {jobId}
  {
    if appsFault.None? {
      DeleteAfterApplicationsSucceeds(t, jobId, jobFault);
    }
  }

  /** A delete the store accepted leaves the local list mirroring the store. */
  lemma {:induction false} DeleteKeepsMirror(jobs: seq<ListedJob>, t: Tables, jobId: Id)
    requires MirrorsStore(jobs, t)
    ensures MirrorsStore(Without(jobs, jobId), t.(jobs := t.jobs - {jobId}))
  {
    var r := Without(jobs, jobId);
    forall i | 0 <= i < |r| ensures r[i].job.id in t.jobs - {jobId} && (t.jobs - {jobId})[r[i].job.id] == r[i].job {
      assert r[i] in r;
      var j :| 0 <= j < |jobs| && jobs[j] == r[i];
    }
    forall k | k in t.jobs - {jobId} ensures exists i | 0 <= i < |r| :: r[i].job.id == k {
      var j :| 0 <= j < |jobs| && jobs[j].job.id == k;
      assert jobs[j] in r;
    }
  }

  /** The table's filter: title search, then status and category, `"all"` letting every value through. */
  predicate Shown(x: ListedJob, search: string, statusFilter: string, categoryFilter: string) {
    Includes(ToLower(x.job.title), ToLower(search))
    && (statusFilter == "all" || JobStatusKey(x.job.status) == statusFilter)
    && (categoryFilter == "all" || JobCategoryKey(x.job.category) == categoryFilter)
  }

  /** `filteredJobs`. */
  function FilteredJobs(jobs: seq<ListedJob>, search: string, statusFilter: string, categoryFilter: string): (r: seq<ListedJob>)
    ensures forall x :: x in r <==> x in jobs && Shown(x, search, statusFilter, categoryFilter)
  {
    Lists.Filter(jobs, (x: ListedJob) => Shown(x, search, statusFilter, categoryFilter))
  }

  /** A row is shown exactly when its lowercased title contains the lowercased query and both selects match it. */
  lemma {:induction false} FilteredJobsMeaning(jobs: seq<ListedJob>, search: string, statusFilter: string, categoryFilter: string, x: ListedJob)
    ensures x in FilteredJobs(jobs, search, statusFilter, categoryFilter)
        <==> x in jobs
             && (exists i: nat :: OccursAt(ToLower(x.job.title), ToLower(search), i))
             && (statusFilter == "all" || JobStatusKey(x.job.status) == statusFilter)
             && (categoryFilter == "all" || JobCategoryKey(x.job.category) == categoryFilter)
  {
    IncludesIffOccurs(ToLower(x.job.title), ToLower(search));
  }

  /** With an empty query and both selects on `"all"`, the table shows every row in order. */
  lemma {:induction false} NoFilterShowsAll(jobs: seq<ListedJob>)
    ensures FilteredJobs(jobs, "", "all", "all") == jobs
  {
    forall i | 0 <= i < |jobs| ensures Shown(jobs[i], "", "all", "all") {
      IncludesEmpty(ToLower(jobs[i].job.title));
    }
    Lists.FilterKeepsAll(jobs, (x: ListedJob) => Shown(x, "", "all", "all"));
  }

  /** The page's state. */
  class AdminJobsPage {
    var jobs: seq<ListedJob>
    var loading: bool
    var searchQuery: string
    var statusFilter: string
    var categoryFilter: string
    var deleteDialogOpen: bool
    var jobToDelete: Option<ListedJob>

    constructor ()
      ensures jobs == [] && loading && searchQuery == ""
      ensures statusFilter == "all" && categoryFilter == "all"
      ensures !deleteDialogOpen && jobToDelete.None?
    {
      jobs, loading, searchQuery := [], true, "";
      statusFilter, categoryFilter := "all", "all";
      deleteDialogOpen, jobToDelete := false, None;
    }

    /** The rows the table shows. */
    function Visible(): seq<ListedJob>
      reads this
    {
      FilteredJobs(jobs, searchQuery, statusFilter, categoryFilter)
    }

    /**
     * `fetchJobs`: read every job newest first, then the profiles of their
     * publishers; a failed job read keeps the list, a failed profile read
     * only loses the names.
     */
    method FetchJobs(db: Database, jobsAnswer: Result<seq<Job>, DbError>, profilesAnswer: Result<seq<Profile>, DbError>)
      requires Valid(db.tables)
      requires JobsAnswer(db.tables, AllJobsNewestFirst, jobsAnswer)
      requires jobsAnswer.Success? ==> ProfilesOfUsersAnswer(db.tables, PublisherIds(jobsAnswer.value), profilesAnswer)
      modifies this`jobs, this`loading
      ensures !loading
      ensures jobsAnswer.Failure? ==> jobs == old(jobs)
      ensures jobsAnswer.Success? ==> jobs == Attach(jobsAnswer.value, PublisherMap(profilesAnswer))
      ensures jobsAnswer.Success? ==> MirrorsStore(jobs, db.tables)
      ensures jobsAnswer.Success? && profilesAnswer.Success? ==> forall i | 0 <= i < |jobs| :: NamesPublisher(db.tables, jobs[i])
    {
      if jobsAnswer.Success? {
        var rows := jobsAnswer.value;
        jobs := Attach(rows, PublisherMap(profilesAnswer));
        FetchMirrorsStore(db.tables, rows, PublisherMap(profilesAnswer));
        if profilesAnswer.Success? {
          FetchNamesPublishers(db.tables, rows, profilesAnswer.value);
        }
      }
      loading := false;
    }

    /** `handleStatusChange`: write the status, and on success rewrite that row alone. */
    method ChangeStatus(db: Database, jobId: Id, newStatus: JobStatus, fault: Option<DbError>)
      requires Valid(db.tables)
      modifies this`jobs, db
      ensures Valid(db.tables)
      ensures Written(db.tables, fault) == AfterUpdateJob(old(db.tables), jobId, StatusPatch(newStatus), fault)
      ensures jobs == if fault.None? then WithStatus(old(jobs), jobId, newStatus) else old(jobs)
      ensures old(MirrorsStore(jobs, db.tables)) ==> MirrorsStore(jobs, db.tables)
    {
      ghost var before := db.tables;
      var error := db.UpdateJob(jobId, StatusPatch(newStatus), fault);
      if error.None? {
        jobs := WithStatus(jobs, jobId, newStatus);
        if MirrorsStore(old(jobs), before) {
          StatusChangeKeepsMirror(old(jobs), before, jobId, newStatus);
        }
      }
    }

    /** The row's delete button: remember the job and open the confirmation. */
    method RequestDelete(x: ListedJob)
      modifies this`jobToDelete, this`deleteDialogOpen
      ensures jobToDelete == Some(x) && deleteDialogOpen
    {
      jobToDelete := Some(x);
      deleteDialogOpen := true;
    }

    /**
     * `handleDeleteJob`: with no pending job nothing happens; otherwise delete
     * the job's applications, then the job, drop the row only if the second
     * write succeeded, and in every case close the dialog and forget the job.
     */
    method ConfirmDelete(db: Database, appsFault: Option<DbError>, jobFault: Option<DbError>)
      requires Valid(db.tables)
      modifies this`jobs, this`deleteDialogOpen, this`jobToDelete, db
      ensures Valid(db.tables)
      ensures old(jobToDelete).None? ==>
        jobs == old(jobs) && db.tables == old(db.tables)
        && deleteDialogOpen == old(deleteDialogOpen) && jobToDelete.None?
      ensures old(jobToDelete).Some? ==>
        var w := DeleteWrites(old(db.tables), old(jobToDelete).value.job.id, appsFault, jobFault);
        db.tables == w.after
        && jobs == (if w.error.None? then Without(old(jobs), old(jobToDelete).value.job.id) else old(jobs))
        && !deleteDialogOpen && jobToDelete.None?
      ensures old(MirrorsStore(jobs, db.tables)) ==> MirrorsStore(jobs, db.tables)
    {
      if jobToDelete.None? {
        return;
      }
      var jobId := jobToDelete.value.job.id;
      var _ := db.DeleteApplicationsOf(jobId, appsFault);
      ghost var between := db.tables;
      var error := db.DeleteJob(jobId, jobFault);
      if error.None? {
        jobs := Without(jobs, jobId);
        if MirrorsStore(old(jobs), old(db.tables)) {
          DeleteKeepsMirror(old(jobs), between, jobId);
        }
      }
      deleteDialogOpen := false;
      jobToDelete := None;
    }
  }
}
