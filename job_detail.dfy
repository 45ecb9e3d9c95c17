/**
 * One job's page (`src/pages/JobDetail.tsx`): the read of the job and its
 * publisher's name, the check whether the visitor already applied, the
 * application itself, and which of the apply form, the sign-up prompt and
 * the owner's note the page shows.
 */
module JobDetail {
  import opened Wrappers
  import opened Schema
  import opened Store
  import opened Text

  /** The job as the page holds it: the row and, when found, its publisher's name. */
  datatype DetailedJob = DetailedJob(job: Job, publisher: Option<PersonName>)

  /** What takes the place of the apply form for a visitor who may apply. */
  datatype ApplyPanel = NoPanel | AlreadyApplied | ApplyForm(busy: bool)

  /** The three things the page can render. */
  datatype Screen =
    | Spinner
    | NotFound
    | Detail(panel: ApplyPanel, signUpPrompt: bool, ownerNote: bool)

  /** `user?.id === job.publisher_id`. */
  predicate IsOwner(user: Option<Id>, job: Job) {
    user.Some? && user.value == job.publisherId
  }

  /** The page for the given state. */
  function Render(loading: bool, job: Option<DetailedJob>, user: Option<Id>, hasApplied: bool, applying: bool): Screen {
    if loading then Spinner
    else if job.None? then NotFound
    else
      var j := job.value.job;
      var panel :=
        if j.status == Open && !IsOwner(user, j) && user.Some? then
          (if hasApplied then AlreadyApplied else ApplyForm(applying))
        else NoPanel;
      Detail(panel, user.None? && j.status == Open, IsOwner(user, j))
  }

  /**
   * On a loaded open job exactly one of the three blocks shows: the sign-up
   * prompt to a visitor who is not signed in, the owner's note to the
   * publisher, the apply panel to anyone else.
   */
  lemma OpenJobShowsOneBlock(job: DetailedJob, user: Option<Id>, hasApplied: bool, applying: bool)
    requires job.job.status == Open
    ensures var s := Render(false, Some(job), user, hasApplied, applying);
      s.Detail?
      && (s.signUpPrompt <==> user.None?)
      && (s.ownerNote <==> IsOwner(user, job.job))
      && (s.panel != NoPanel <==> user.Some? && !IsOwner(user, job.job))
      && (if s.signUpPrompt then 1 else 0) + (if s.ownerNote then 1 else 0) + (if s.panel != NoPanel then 1 else 0) == 1
  {
  }

  /** A job that is not open offers neither the apply form nor the sign-up prompt. */
  lemma ClosedJobOffersNothing(job: DetailedJob, user: Option<Id>, hasApplied: bool, applying: bool)
    requires job.job.status != Open
    ensures var s := Render(false, Some(job), user, hasApplied, applying);
      s.Detail? && s.panel == NoPanel && !s.signUpPrompt
  {
  }

  /** Once the page knows the visitor applied, it never shows the form again. */
  lemma AppliedHidesForm(job: DetailedJob, user: Option<Id>, applying: bool)
    ensures !Render(false, Some(job), user, true, applying).Detail?
         || !Render(false, Some(job), user, true, applying).panel.ApplyForm?
  {
  }

  /** The name the page shows: none when the profile read failed or found no row. */
  function PublisherOf(profileAnswer: Result<Option<Profile>, DbError>): (r: Option<PersonName>)
    ensures r.Some? <==> profileAnswer.Success? && profileAnswer.value.Some?
    ensures r.Some? ==> r.value == NameOf(profileAnswer.value.value)
  {
    if profileAnswer.Success? && profileAnswer.value.Some? then Some(NameOf(profileAnswer.value.value)) else None
  }

  /** The payload of the insert: `message || null`. */
  function ApplicationFor(jobId: Id, applicant: Id, message: string): (ins: ApplicationInsert)
    ensures ins.jobId == jobId && ins.applicantId == applicant
    ensures ins.message.None? <==> message == ""
  {
    ApplicationInsert(jobId, applicant, OrNull(message))
  }

  /** The insert outcomes after which the page marks the job as applied to. */
  predicate MarksApplied(error: Option<DbError>) {
    error.None? || error == Some(DbError(UniqueViolation))
  }

  /**
   * On an existing job and with no fault, applying always ends with the
   * page marked as applied and an application on record, and the store
   * refuses the insert exactly when one was already there.
   */
  lemma {:induction false} ApplyToExistingJob(t: Tables, id: Id, jobId: Id, applicant: Id, message: string)
    requires Valid(t) && id !in t.applications && jobId in t.jobs
    ensures var w := AfterInsertApplication(t, id, ApplicationFor(jobId, applicant, message), None);
      MarksApplied(w.error)
      && HasApplication(w.after, jobId, applicant)
      && (w.error.Some? <==> HasApplication(t, jobId, applicant))
  {
    DuplicateApplicationRefused(t, id, ApplicationFor(jobId, applicant, message));
  }

  /** On a job that does not exist the store refuses the insert and the page is not marked. */
  lemma ApplyToMissingJob(t: Tables, id: Id, jobId: Id, applicant: Id, message: string)
    requires id !in t.applications && jobId !in t.jobs
    ensures var w := AfterInsertApplication(t, id, ApplicationFor(jobId, applicant, message), None);
      w.error == Some(DbError(ForeignKeyViolation)) && !MarksApplied(w.error) && w.after == t
  {
  }

  /** The page's state for the job whose id is in the route. */
  class JobDetailPage {
    const jobId: Id
    var job: Option<DetailedJob>
    var loading: bool
    var applying: bool
    var hasApplied: bool
    var message: string

    constructor (routeId: Id)
      ensures jobId == routeId
      ensures job.None? && loading && !applying && !hasApplied && message == ""
    {
      jobId := routeId;
      job, loading, applying, hasApplied, message := None, true, false, false, "";
    }

    /** What the page renders for the signed-in user, if any. */
    function View(user: Option<Id>): Screen
      reads this
    {
      Render(loading, job, user, hasApplied, applying)
    }

    /** `hasApplied` is only ever true for a user who has an application on record. */
    ghost predicate AppliedIsTrue(t: Tables, user: Option<Id>)
      reads this
    {
      hasApplied ==> user.Some? && HasApplication(t, jobId, user.value)
    }

    /**
     * `fetchJob`: a found row replaces the job, with its publisher's name
     * when that read found one; a missing row or a failed read leaves the
     * job as it was. Loading ends in every case.
     */
    method FetchJob(db: Database, jobAnswer: Result<Option<Job>, DbError>, profileAnswer: Result<Option<Profile>, DbError>)
      requires JobByIdAnswer(db.tables, jobId, jobAnswer)
      requires jobAnswer.Success? && jobAnswer.value.Some? ==>
        ProfileOfUserAnswer(db.tables, jobAnswer.value.value.publisherId, profileAnswer)
      modifies this`job, this`loading
      ensures !loading
      ensures job == if jobAnswer.Success? && jobAnswer.value.Some?
        then Some(DetailedJob(jobAnswer.value.value, PublisherOf(profileAnswer)))
        else old(job)
      ensures jobAnswer.Success? && jobAnswer.value.Some? ==>
        jobId in db.tables.jobs && job.value.job == db.tables.jobs[jobId]
      ensures jobAnswer.Success? && jobAnswer.value.Some? ==>
        (job.value.publisher.Some? <==> profileAnswer.Success? && exists k | k in db.tables.profiles :: db.tables.profiles[k].userId == job.value.job.publisherId)
    {
      if jobAnswer.Success? && jobAnswer.value.Some? {
        job := Some(DetailedJob(jobAnswer.value.value, PublisherOf(profileAnswer)));
      }
      loading := false;
    }

    /** `checkApplication`: marks the page only when the read found the user's application. */
    method CheckApplication(db: Database, user: Option<Id>, answer: Result<Option<JobApplication>, DbError>)
      requires user.Some? ==> ApplicationOfAnswer(db.tables, jobId, user.value, answer)
      modifies this`hasApplied
      ensures hasApplied == (old(hasApplied) || (user.Some? && answer.Success? && answer.value.Some?))
      ensures old(AppliedIsTrue(db.tables, user)) ==> AppliedIsTrue(db.tables, user)
    {
      if user.None? {
        return;
      }
      if answer.Success? && answer.value.Some? {
        hasApplied := true;
      }
    }

    /** The message box. */
    method EditMessage(m: string)
      modifies this`message
      ensures message == m
    {
      message := m;
    }

    /**
     * `handleApply`: a visitor who is not signed in is sent to `/auth` and
     * nothing is written; otherwise the application is inserted, and the
     * page is marked as applied when the insert succeeded or the store
     * refused it as a duplicate.
     */
    method Apply(db: Database, user: Option<Id>, fault: Option<DbError>) returns (nav: Option<string>)
      requires Valid(db.tables)
      modifies this`applying, this`hasApplied, db
      ensures Valid(db.tables)
      ensures user.None? ==>
        (nav == Some("/auth") && db.tables == old(db.tables)
         && hasApplied == old(hasApplied) && applying == old(applying))
      ensures user.Some? ==>
        (nav.None? && !applying
         && exists id | id !in old(db.tables).applications ::
              var w := AfterInsertApplication(old(db.tables), id, ApplicationFor(jobId, user.value, message), fault);
              db.tables == w.after && hasApplied == (old(hasApplied) || MarksApplied(w.error)))
      ensures old(AppliedIsTrue(db.tables, user)) && fault != Some(DbError(UniqueViolation)) ==> AppliedIsTrue(db.tables, user)
    {
      if user.None? {
        return Some("/auth");
      }
      applying := true;
      var id, error := db.InsertApplication(ApplicationFor(jobId, user.value, message), fault);
      if MarksApplied(error) {
        hasApplied := true;
      }
      applying := false;
      nav := None;
      if fault.None? {
        if jobId in old(db.tables).jobs {
          ApplyToExistingJob(old(db.tables), id, jobId, user.value, message);
        }
      }
    }
  }
}
