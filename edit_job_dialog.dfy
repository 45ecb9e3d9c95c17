/**
 * The admin's dialog that edits a job (`src/components/admin/EditJobDialog.tsx`):
 * a partial copy of the job that the fields edit, seeded from the job when
 * the dialog reports itself opened, and the update that writes the copy
 * back by id. A field the copy lacks is left out of the update, except the
 * assignee, which `|| null` always writes.
 */
module EditJob {
  import opened Wrappers
  import opened Schema
  import opened Store

  /** `Partial<Job>`: each column the form may or may not hold. */
  datatype JobDraft = JobDraft(
    title: Option<string>,
    description: Option<string>,
    category: Option<JobCategory>,
    province: Option<Province>,
    budget: Option<real>,
    status: Option<JobStatus>,
    estimatedDate: Option<Option<string>>,
    assignedTo: Option<Option<Id>>)

  /** `useState<Partial<Job>>({})`. */
  const EmptyDraft: JobDraft := JobDraft(None, None, None, None, None, None, None, None)

  /** `setFormData({ ...job })`: every column of the job. */
  function Seed(j: Job): JobDraft {
    JobDraft(Some(j.title), Some(j.description), Some(j.category), Some(j.province), Some(j.budget),
             Some(j.status), Some(j.estimatedDate), Some(j.assignedTo))
  }

  /** One field's `onChange`; the selects offer every category, province and status, with no transition check. */
  datatype JobEdit =
    | SetTitle(title: string)
    | SetDescription(description: string)
    | SetCategory(category: JobCategory)
    | SetProvince(province: Province)
    | SetBudget(budget: real)
    | SetStatus(status: JobStatus)
    | SetEstimatedDate(date: string)

  /** `setFormData({ ...formData, field: value })`. */
  function Applied(d: JobDraft, e: JobEdit): JobDraft {
    match e
    case SetTitle(x) => d.(title := Some(x))
    case SetDescription(x) => d.(description := Some(x))
    case SetCategory(x) => d.(category := Some(x))
    case SetProvince(x) => d.(province := Some(x))
    case SetBudget(x) => d.(budget := Some(x))
    case SetStatus(x) => d.(status := Some(x))
    case SetEstimatedDate(x) => d.(estimatedDate := Some(Some(x)))
  }

  /** The edits one after another. */
  function AppliedAll(d: JobDraft, es: seq<JobEdit>): JobDraft
    decreases |es|
  {
    if es == [] then d else AppliedAll(Applied(d, es[0]), es[1..])
  }

  /** The job the admin means by an edit: the same column set on the row itself. */
  function Edited(j: Job, e: JobEdit): Job {
    match e
    case SetTitle(x) => j.(title := x)
    case SetDescription(x) => j.(description := x)
    case SetCategory(x) => j.(category := x)
    case SetProvince(x) => j.(province := x)
    case SetBudget(x) => j.(budget := x)
    case SetStatus(x) => j.(status := x)
    case SetEstimatedDate(x) => j.(estimatedDate := Some(x))
  }

  /** The edits one after another, on the row. */
  function EditedAll(j: Job, es: seq<JobEdit>): Job
    decreases |es|
  {
    if es == [] then j else EditedAll(Edited(j, es[0]), es[1..])
  }

  /** `formData.assigned_to || null`: an absent, `null` or empty assignee is written as `null`. */
  function AssignedColumn(a: Option<Option<Id>>): (r: Option<Id>)
    ensures r.None? <==> a.None? || a.value.None? || a.value.value == ""
    ensures r.Some? ==> r == a.value
  {
    if a.Some? && a.value.Some? && a.value.value != "" then a.value else None
  }

  /**
   * The object passed to `update`: the draft's columns, an absent one left
   * out of the request, and the assignee always present.
   */
  function UpdatePayload(d: JobDraft): JobPatch {
    JobPatch(d.title, d.description, d.category, d.province, d.budget, d.status, d.estimatedDate,
             Some(AssignedColumn(d.assignedTo)))
  }

  /**
   * The update writes the draft's columns and nothing else: the id, the
   * publisher and the creation time stay, a column the draft lacks stays,
   * and the assignee becomes the draft's or `null`.
   */
  lemma SaveWritesDraft(j: Job, d: JobDraft)
    ensures var r := PatchJob(j, UpdatePayload(d));
      r.id == j.id && r.publisherId == j.publisherId && r.createdAt == j.createdAt
      && r.title == d.title.GetOr(j.title) && r.description == d.description.GetOr(j.description)
      && r.category == d.category.GetOr(j.category) && r.province == d.province.GetOr(j.province)
      && r.budget == d.budget.GetOr(j.budget) && r.status == d.status.GetOr(j.status)
      && r.estimatedDate == d.estimatedDate.GetOr(j.estimatedDate)
      && r.assignedTo == AssignedColumn(d.assignedTo)
  {
  }

  /** Editing a seeded draft is seeding from the edited row. */
  lemma {:induction false} SeedCommutes(j: Job, es: seq<JobEdit>)
    ensures AppliedAll(Seed(j), es) == Seed(EditedAll(j, es))
    ensures EditedAll(j, es).assignedTo == j.assignedTo
    ensures EditedAll(j, es).id == j.id && EditedAll(j, es).publisherId == j.publisherId
    ensures EditedAll(j, es).createdAt == j.createdAt
    decreases |es|
  {
    if es != [] {
      assert Applied(Seed(j), es[0]) == Seed(Edited(j, es[0]));
      SeedCommutes(Edited(j, es[0]), es[1..]);
    }
  }

  /** Saving a freshly seeded draft writes the row back unchanged, unless its assignee is the empty string. */
  lemma {:induction false} SeededSaveKeepsJob(j: Job)
    requires j.assignedTo != Some("")
    ensures PatchJob(j, UpdatePayload(Seed(j))) == j
  {
    assert AssignedColumn(Some(j.assignedTo)) == j.assignedTo;
  }

  /** Saving a seeded draft after some edits writes exactly those edits to the row. */
  lemma {:induction false} SeededSaveWritesEdits(j: Job, es: seq<JobEdit>)
    requires j.assignedTo != Some("")
    ensures PatchJob(j, UpdatePayload(AppliedAll(Seed(j), es))) == EditedAll(j, es)
  {
    SeedCommutes(j, es);
    var e := EditedAll(j, es);
    SeededSaveKeepsJob(e);
    assert PatchJob(j, UpdatePayload(Seed(e))) == PatchJob(e, UpdatePayload(Seed(e)));
  }

  /** Saving a draft that was never seeded writes nothing but a `null` assignee. */
  lemma UnseededSaveClearsAssignee(j: Job)
    ensures PatchJob(j, UpdatePayload(EmptyDraft)) == j.(assignedTo := None)
  {
  }

  /** So on an assigned job, opening the dialog and saving without an edit drops the assignee. */
  lemma {:induction false} UnseededSaveChangesAssignedJob(j: Job)
    requires j.assignedTo.Some?
    ensures PatchJob(j, UpdatePayload(EmptyDraft)) != j
  {
    UnseededSaveClearsAssignee(j);
    assert PatchJob(j, UpdatePayload(EmptyDraft)).assignedTo.None?;
  }

  /** The dialog's state, with the job and the open flag its owner passes in. */
  class EditJobDialog {
    var job: Option<Job>
    var open: bool
    var loading: bool
    var draft: JobDraft

    constructor ()
      ensures job.None? && !open && !loading && draft == EmptyDraft
    {
      job, open, loading, draft := None, false, false, EmptyDraft;
    }

    /**
     * `handleEditJob` of the jobs page: the job and `open` are set
     * directly, so the dialog's own `handleOpen` does not run and the draft
     * is whatever it held before.
     */
    method ShowFor(j: Job)
      modifies this`job, this`open
      ensures job == Some(j) && open
    {
      job, open := Some(j), true;
    }

    /** `handleOpen`: opening on a job seeds the draft from it; the flag follows. */
    method HandleOpen(isOpen: bool)
      modifies this`draft, this`open
      ensures open == isOpen
      ensures draft == if isOpen && job.Some? then Seed(job.value) else old(draft)
    {
      if isOpen && job.Some? {
        draft := Seed(job.value);
      }
      open := isOpen;
    }

    /** Opening the dialog on a job so that it is seeded: show it, then let it report itself opened. */
    method OpenFor(j: Job)
      modifies this`job, this`open, this`draft
      ensures job == Some(j) && open && draft == Seed(j)
    {
      ShowFor(j);
      HandleOpen(true);
    }

    /** A field's `onChange`. */
    method Edit(e: JobEdit)
      modifies this`draft
      ensures draft == Applied(old(draft), e)
    {
      draft := Applied(draft, e);
    }

    /**
     * `handleSubmit`: with no job nothing happens; otherwise the draft is
     * written to the job's row, and on success `onSave` is called (`saved`)
     * and the dialog closes; on failure it stays open.
     */
    method Submit(db: Database, fault: Option<DbError>) returns (saved: bool)
      requires Valid(db.tables)
      modifies this`loading, this`open, db
      ensures Valid(db.tables)
      ensures job.None? ==> !saved && db.tables == old(db.tables) && open == old(open) && loading == old(loading)
      ensures job.Some? ==>
        (db.tables == AfterUpdateJob(old(db.tables), job.value.id, UpdatePayload(draft), fault).after
         && !loading && (saved <==> fault.None?) && open == (old(open) && !saved))
      ensures job.Some? && job.value.id in old(db.tables).jobs && saved
              && old(db.tables).jobs[job.value.id].assignedTo != Some("") ==>
        forall es | draft == AppliedAll(Seed(old(db.tables).jobs[job.value.id]), es) ::
          db.tables.jobs[job.value.id] == EditedAll(old(db.tables).jobs[job.value.id], es)
      ensures job.Some? && job.value.id in old(db.tables).jobs && saved && draft == EmptyDraft ==>
        db.tables.jobs[job.value.id] == old(db.tables).jobs[job.value.id].(assignedTo := None)
    {
      saved := false;
      if job.None? {
        return;
      }
      loading := true;
      var id := job.value.id;
      ghost var before := db.tables;
      var error := db.UpdateJob(id, UpdatePayload(draft), fault);
      if error.None? {
        saved := true;
        open := false;
        if id in before.jobs && before.jobs[id].assignedTo != Some("") {
          forall es | draft == AppliedAll(Seed(before.jobs[id]), es)
            ensures db.tables.jobs[id] == EditedAll(before.jobs[id], es)
          {
            SeededSaveWritesEdits(before.jobs[id], es);
          }
        }
      }
      loading := false;
    }
  }
}
