/**
 * The form that publishes a job (`src/pages/CreateJob.tsx`): the schema's
 * rules, the per-field error map built from the failed rules, and the insert
 * of a new open job. Its redirect of a visitor is `Navigation.AuthRedirect`.
 */
module CreateJob {
  import opened Wrappers
  import opened Schema
  import opened Store
  import opened Text
  import Lists

  /**
   * The form as typed. `category` and `province` hold the key a select
   * chose, or "" before a choice; `budget` is `parseFloat` of the budget
   * field, `None` standing for `NaN`.
   */
  datatype JobForm = JobForm(
    title: string,
    description: string,
    category: string,
    province: string,
    budget: Option<real>,
    estimatedDate: string)

  /** The form as the page starts it. */
  const BlankForm: JobForm := JobForm("", "", "", "", None, "")

  const TitleMessage := "El título debe tener al menos 5 caracteres"
  const DescriptionMessage := "La descripción debe tener al menos 20 caracteres"
  const CategoryMessage := "Selecciona una categoría"
  const ProvinceMessage := "Selecciona una provincia"
  const BudgetMessage := "El presupuesto debe ser mayor a 0"

  /** `parseFloat(formData.budget) || 0`: `NaN` and zero both become zero. */
  function CheckedBudget(budget: Option<real>): real {
    if budget.Some? then budget.value else 0.0
  }

  /** The rule of each field of the schema, in the schema's order. */
  predicate TitleOk(f: JobForm) { |f.title| >= 5 }
  predicate DescriptionOk(f: JobForm) { |f.description| >= 20 }
  predicate CategoryOk(f: JobForm) { |f.category| >= 1 }
  predicate ProvinceOk(f: JobForm) { |f.province| >= 1 }
  predicate BudgetOk(f: JobForm) { CheckedBudget(f.budget) >= 1.0 }

  /** The field an issue's path names. */
  datatype Field = TitleField | DescriptionField | CategoryField | ProvinceField | BudgetField

  /** `err.path[0]`: the field's name in the form. */
  function PathOf(f: Field): string {
    match f
    case TitleField => "title"
    case DescriptionField => "description"
    case CategoryField => "category"
    case ProvinceField => "province"
    case BudgetField => "budget"
  }

  /** Distinct fields have distinct paths, so keying the errors by field is keying them by path. */
  lemma PathsDistinct(a: Field, b: Field)
    ensures PathOf(a) == PathOf(b) <==> a == b
  {
  }

  /** The issues `safeParse` reports: the path and message of each failed rule, in the schema's order. */
  function Issues(f: JobForm): (r: seq<(Field, string)>)
    ensures |r| <= 5
    ensures forall i, j | 0 <= i < j < |r| :: r[i].0 != r[j].0
  {
    (if TitleOk(f) then [] else [(TitleField, TitleMessage)])
    + (if DescriptionOk(f) then [] else [(DescriptionField, DescriptionMessage)])
    + (if CategoryOk(f) then [] else [(CategoryField, CategoryMessage)])
    + (if ProvinceOk(f) then [] else [(ProvinceField, ProvinceMessage)])
    + (if BudgetOk(f) then [] else [(BudgetField, BudgetMessage)])
  }

  /** The form passes exactly when every rule holds. */
  lemma IssuesEmptyIff(f: JobForm)
    ensures Issues(f) == [] <==> TitleOk(f) && DescriptionOk(f) && CategoryOk(f) && ProvinceOk(f) && BudgetOk(f)
  {
  }

  /** A budget that passes is a number of at least one, so the insert's own `parseFloat` agrees with the check. */
  lemma PassingBudgetIsNumber(f: JobForm)
    requires BudgetOk(f)
    ensures f.budget.Some? && f.budget.value >= 1.0
  {
  }

  /**
   * `result.error.errors.forEach(err => fieldErrors[err.path[0]] = err.message)`:
   * one entry per path, the last message for that path winning.
   */
  method FieldErrors(issues: seq<(Field, string)>) returns (errors: map<Field, string>)
    ensures errors == Lists.ToMap(issues)
  {
    errors := map[];
    var i := 0;
    while i < |issues|
      invariant 0 <= i <= |issues|
      invariant errors == Lists.ToMap(issues[..i])
    {
      assert issues[..i + 1][..i] == issues[..i];
      errors := errors[issues[i].0 := issues[i].1];
      i := i + 1;
    }
    assert issues[..|issues|] == issues;
  }

  /** The message the schema gives for a field's rule. */
  function MessageOf(field: Field): string {
    match field
    case TitleField => TitleMessage
    case DescriptionField => DescriptionMessage
    case CategoryField => CategoryMessage
    case ProvinceField => ProvinceMessage
    case BudgetField => BudgetMessage
  }

  /** The rule of a field. */
  predicate RuleHolds(f: JobForm, field: Field) {
    match field
    case TitleField => TitleOk(f)
    case DescriptionField => DescriptionOk(f)
    case CategoryField => CategoryOk(f)
    case ProvinceField => ProvinceOk(f)
    case BudgetField => BudgetOk(f)
  }

  /** The issues name a field exactly when its rule fails. */
  lemma {:induction false} IssueNamesField(f: JobForm, field: Field)
    ensures (exists p | p in Issues(f) :: p.0 == field) <==> !RuleHolds(f, field)
  {
    if !RuleHolds(f, field) {
      assert (field, MessageOf(field)) in Issues(f);
    }
  }

  /** A field has an error exactly when its rule fails. */
  lemma {:induction false} FieldErrorIffRuleFails(f: JobForm, field: Field)
    ensures field in Lists.ToMap(Issues(f)) <==> !RuleHolds(f, field)
  {
    Lists.InToMap(Issues(f), field);
    IssueNamesField(f, field);
  }

  /** Every error is the message of its field's rule. */
  lemma {:induction false} FieldErrorsMessages(f: JobForm)
    ensures var e := Lists.ToMap(Issues(f));
      forall k | k in e :: e[k] == MessageOf(k)
  {
    Lists.ToMapValues(Issues(f), MessageOf);
  }

  /**
   * The row the insert sends once the form passed: the typed fields, the
   * chosen keys, the parsed budget, `estimatedDate || null`, the status
   * `"open"` and the signed-in user as publisher.
   */
  function Payload(f: JobForm, user: Id, category: JobCategory, province: Province): (ins: JobInsert)
    requires BudgetOk(f)
    ensures ins.publisherId == user && ins.status == Some(Open) && ins.assignedTo.None?
    ensures ins.title == f.title && ins.description == f.description && ins.budget >= 1.0
    ensures ins.budget == f.budget.value && ins.category == category && ins.province == province
    ensures ins.estimatedDate == Some(OrNull(f.estimatedDate))
  {
    JobInsert(f.title, f.description, category, province, f.budget.value, user, Some(Open), Some(OrNull(f.estimatedDate)), None)
  }

  /** A job published through the form is open, belongs to the publisher, and meets every rule of the form. */
  lemma {:induction false} PublishedJobMeetsRules(f: JobForm, user: Id, category: JobCategory, province: Province, t: Tables, id: Id)
    requires Issues(f) == [] && id !in t.jobs
    ensures var w := AfterInsertJob(t, id, Payload(f, user, category, province), None);
      w.error.None? && id in w.after.jobs
      && var j := w.after.jobs[id];
      j.status == Open && j.publisherId == user && j.assignedTo.None?
      && |j.title| >= 5 && |j.description| >= 20 && j.budget >= 1.0
      && j.category == category && j.province == province
      && (j.estimatedDate.None? <==> f.estimatedDate == "")
  {
    IssuesEmptyIff(f);
  }

  /** The page's state. */
  class CreateJobPage {
    var form: JobForm
    var errors: map<Field, string>
    var loading: bool

    constructor ()
      ensures form == BlankForm && errors == map[] && !loading
    {
      form, errors, loading := BlankForm, map[], false;
    }

    /**
     * `handleSubmit`: clear the errors; a form that fails the schema only
     * fills the error map; otherwise insert the job for the signed-in user
     * and, on success, go to `/dashboard/jobs`. A key the store's enum does
     * not know is refused by the store with `22P02`, and a visitor who is
     * not signed in gets no write.
     */
    method Submit(db: Database, user: Option<Id>, fault: Option<DbError>) returns (nav: Option<string>)
      requires Valid(db.tables)
      modifies this`errors, this`loading, db
      ensures Valid(db.tables) && !loading
      ensures Issues(form) != [] ==>
        errors == Lists.ToMap(Issues(form)) && db.tables == old(db.tables) && nav.None?
      ensures Issues(form) == [] ==> errors == map[]
      ensures Issues(form) == [] && (user.None? || ParseJobCategory(form.category).None? || ParseProvince(form.province).None?) ==>
        db.tables == old(db.tables) && nav.None?
      ensures Issues(form) == [] && user.Some? && ParseJobCategory(form.category).Some? && ParseProvince(form.province).Some? ==>
        exists id | id !in old(db.tables).jobs ::
          var w := AfterInsertJob(old(db.tables), id, Payload(form, user.value, ParseJobCategory(form.category).value, ParseProvince(form.province).value), fault);
          db.tables == w.after && (nav == if w.error.None? then Some("/dashboard/jobs") else None)
    {
      loading := true;
      errors := map[];
      nav := None;
      var issues := Issues(form);
      if issues != [] {
        errors := FieldErrors(issues);
        loading := false;
        return;
      }
      IssuesEmptyIff(form);
      var category := ParseJobCategory(form.category);
      var province := ParseProvince(form.province);
      if user.Some? && category.Some? && province.Some? {
        var id, error := db.InsertJob(Payload(form, user.value, category.value, province.value), fault);
        if error.None? {
          nav := Some("/dashboard/jobs");
        }
      }
      loading := false;
    }
  }
}
