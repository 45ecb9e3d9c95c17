/**
 * The publisher's own jobs (`src/pages/dashboard/MyJobs.tsx`): the read of
 * the signed-in user's jobs, the tabs that narrow them by status, and the
 * count on each tab.
 */
module MyJobs {
  import opened Wrappers
  import opened Schema
  import opened Store
  import Lists

  /** The tabs, in order: every job, then three of the five statuses. */
  const Tabs: seq<string> := ["all", "open", "assigned", "completed"]

  /** The read: the user's jobs, newest first. */
  function OwnJobsQuery(user: Id): (q: JobQuery)
    ensures q.order == NewestFirst
  {
    JobQuery([Eq(PublisherColumn, user)], NewestFirst)
  }

  /** A job matches the read exactly when the user published it. */
  lemma OwnJobsQueryMeaning(j: Job, user: Id)
    ensures MatchesAll(j, OwnJobsQuery(user).filters) <==> j.publisherId == user
  {
    assert OwnJobsQuery(user).filters[0] == Eq(PublisherColumn, user);
  }

  /** `filter === "all" ? jobs : jobs.filter(job => job.status === filter)`. */
  function FilteredJobs(jobs: seq<Job>, filter: string): (r: seq<Job>)
    ensures filter == "all" ==> r == jobs
    ensures filter != "all" ==> forall j :: j in r <==> j in jobs && JobStatusKey(j.status) == filter
  {
    if filter == "all" then jobs else Lists.Filter(jobs, (j: Job) => JobStatusKey(j.status) == filter)
  }

  /** The jobs in a status, in order. */
  function WithStatus(jobs: seq<Job>, s: JobStatus): (r: seq<Job>)
    ensures forall j :: j in r <==> j in jobs && j.status == s
  {
    Lists.Filter(jobs, (j: Job) => j.status == s)
  }

  /** The tab of a status shows exactly the jobs in that status. */
  lemma {:induction false} TabShowsStatus(jobs: seq<Job>, s: JobStatus)
    ensures FilteredJobs(jobs, JobStatusKey(s)) == WithStatus(jobs, s)
  {
    forall i | 0 <= i < |jobs| ensures (JobStatusKey(jobs[i].status) == JobStatusKey(s)) == (jobs[i].status == s) {
      JobStatusKeyRoundTrip(jobs[i].status);
      JobStatusKeyRoundTrip(s);
    }
    Lists.FilterAgree(jobs, (j: Job) => JobStatusKey(j.status) == JobStatusKey(s), (j: Job) => j.status == s);
  }

  /** `jobs.filter(j => j.status === s).length`, the count on a tab. */
  function CountOf(jobs: seq<Job>, s: JobStatus): nat {
    |WithStatus(jobs, s)|
  }

  /** The five statuses split the jobs: their counts add up to the count on "all". */
  lemma {:induction false} CountsPartition(jobs: seq<Job>)
    ensures CountOf(jobs, Open) + CountOf(jobs, Assigned) + CountOf(jobs, Approved)
            + CountOf(jobs, Completed) + CountOf(jobs, Cancelled) == |jobs|
  {
    if jobs != [] {
      CountsPartition(jobs[1..]);
    }
  }

  /** Approved and cancelled jobs have no tab: only "all" shows them. */
  lemma {:induction false} HiddenStatuses(jobs: seq<Job>, tab: string, j: Job)
    requires tab in Tabs && tab != "all"
    requires j.status == Approved || j.status == Cancelled
    ensures j !in FilteredJobs(jobs, tab)
  {
    assert JobStatusKey(j.status) != tab;
  }

  /** The page's state. */
  class MyJobsPage {
    var jobs: seq<Job>
    var loading: bool
    var filter: string

    constructor ()
      ensures jobs == [] && loading && filter == "all"
    {
      jobs, loading, filter := [], true, "all";
    }

    /** The cards under the chosen tab. */
    function Visible(): seq<Job>
      reads this
    {
      FilteredJobs(jobs, filter)
    }

    /**
     * The effect and `fetchJobs`: without a user nothing is read and the
     * page keeps loading; otherwise a successful read replaces the list
     * and a failed one keeps it.
     */
    method FetchJobs(db: Database, user: Option<Id>, answer: Result<seq<Job>, DbError>)
      requires user.Some? ==> JobsAnswer(db.tables, OwnJobsQuery(user.value), answer)
      modifies this`jobs, this`loading
      ensures user.None? ==> jobs == old(jobs) && loading == old(loading)
      ensures user.Some? ==> !loading && jobs == (if answer.Success? then answer.value else old(jobs))
      ensures user.Some? && answer.Success? ==>
        (forall j :: j in jobs <==> j in db.tables.jobs.Values && j.publisherId == user.value)
        && (forall i, k | 0 <= i < k < |jobs| :: jobs[i].createdAt >= jobs[k].createdAt)
    {
      if user.None? {
        return;
      }
      if answer.Success? {
        jobs := answer.value;
        forall j ensures j in jobs <==> (j in db.tables.jobs.Values && j.publisherId == user.value) {
          OwnJobsQueryMeaning(j, user.value);
        }
      }
      loading := false;
    }

    /** The tabs' `onValueChange`. */
    method SetFilter(tab: string)
      modifies this`filter
      ensures filter == tab
    {
      filter := tab;
    }
  }
}
