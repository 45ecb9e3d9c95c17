/**
 * The signed-in user's own profile page (`src/pages/dashboard/Profile.tsx`):
 * the read of the user's profile into a form of plain strings, and the save
 * that writes the form back, empty fields as `null`, matched on `user_id`.
 */
module ProfilePage {
  import opened Wrappers
  import opened Schema
  import opened Store
  import opened Text

  /**
   * The form as the page holds it: every column as a string, `""` for a
   * `null` column. `province` is the key the select chose, or `""`.
   */
  datatype ProfileForm = ProfileForm(
    firstName: string,
    lastName: string,
    dniNie: string,
    birthDate: string,
    address: string,
    province: string,
    email: string,
    phone: string,
    paymentMethod: string,
    collectionMethod: string)

  /** The form before the read answers. */
  const BlankForm: ProfileForm := ProfileForm("", "", "", "", "", "", "", "", "", "")

  /** The province column as the form shows it. */
  function ProvinceText(p: Option<Province>): string {
    if p.Some? then ProvinceKey(p.value) else ""
  }

  /** `setProfile({ first_name: data.first_name || "", ... })`: the form a stored profile fills. */
  function FormOf(p: Profile): (f: ProfileForm)
    ensures f.firstName == p.firstName && f.lastName == p.lastName && f.email == p.email
    ensures f.dniNie == OrEmpty(p.dniNie) && f.birthDate == OrEmpty(p.birthDate) && f.address == OrEmpty(p.address)
    ensures f.phone == OrEmpty(p.phone) && f.paymentMethod == OrEmpty(p.paymentMethod)
    ensures f.collectionMethod == OrEmpty(p.collectionMethod)
    ensures f.province == "" <==> p.province.None?
  {
    ProfileForm(p.firstName, p.lastName, OrEmpty(p.dniNie), OrEmpty(p.birthDate), OrEmpty(p.address),
                ProvinceText(p.province), p.email, OrEmpty(p.phone), OrEmpty(p.paymentMethod),
                OrEmpty(p.collectionMethod))
  }

  /**
   * The province written by a save: `null` for `""`, the enum value for its
   * key; a key the enum does not know is refused by the store with `22P02`.
   */
  function ProvinceColumn(key: string): (r: Result<Option<Province>, DbError>)
    ensures r.Failure? ==> r.error == DbError(InvalidTextRepresentation)
    ensures r.Success? && r.value.None? <==> key == ""
  {
    if key == "" then Success(None)
    else match ParseProvince(key)
      case Some(v) => Success(Some(v))
      case None => Failure(DbError(InvalidTextRepresentation))
  }

  /**
   * `updateData`: the names as typed, every other text field `|| null`,
   * the province column; neither the email nor the account status is sent.
   */
  function SavePatch(f: ProfileForm): (r: Result<ProfilePatch, DbError>)
    ensures r.Success? <==> ProvinceColumn(f.province).Success?
    ensures r.Success? ==>
      (r.value.email.None? && r.value.accountStatus.None?
       && r.value.firstName == Some(f.firstName) && r.value.lastName == Some(f.lastName)
       && r.value.province == Some(ProvinceColumn(f.province).value))
  {
    match ProvinceColumn(f.province)
    case Failure(e) => Failure(e)
    case Success(province) =>
      Success(ProfilePatch(
        Some(f.firstName), Some(f.lastName), None,
        Some(OrNull(f.phone)), Some(OrNull(f.dniNie)), Some(OrNull(f.address)),
        Some(province), Some(OrNull(f.birthDate)), None,
        Some(OrNull(f.paymentMethod)), Some(OrNull(f.collectionMethod))))
  }

  /** The select only offers the keys of the province enum, or nothing. */
  predicate ProvinceOffered(key: string) {
    key == "" || key in ProvinceValues
  }

  /** Every key the select offers is accepted by the store, and the stored value shows as the same key. */
  lemma {:induction false} OfferedProvinceRoundTrip(key: string)
    requires ProvinceOffered(key)
    ensures ProvinceColumn(key).Success?
    ensures ProvinceText(ProvinceColumn(key).value) == key
  {
    if key != "" {
      ProvinceValuesMatchEnum();
      var i :| 0 <= i < |ProvinceValues| && ProvinceValues[i] == key;
      var v := ProvinceAt(i);
      assert ProvinceKey(v) == key;
      ProvinceKeyRoundTrip(v);
    }
  }

  /** The province a profile holds shows as a key the store accepts back as the same value. */
  lemma {:induction false} StoredProvinceRoundTrip(p: Option<Province>)
    ensures ProvinceColumn(ProvinceText(p)) == Success(p)
  {
    if p.Some? {
      ProvinceKeyRoundTrip(p.value);
    }
  }

  /**
   * Saving a form and reading the profile back shows the form again, with
   * the stored email in place of the form's; the save keeps the account
   * status and the row's identity.
   */
  lemma {:induction false} SaveThenLoad(p: Profile, f: ProfileForm)
    requires ProvinceOffered(f.province)
    ensures SavePatch(f).Success?
    ensures var saved := PatchProfile(p, SavePatch(f).value);
      FormOf(saved) == f.(email := p.email)
      && saved.accountStatus == p.accountStatus && saved.email == p.email
  {
    OfferedProvinceRoundTrip(f.province);
    var saved := PatchProfile(p, SavePatch(f).value);
    OrEmptyOrNull(f.dniNie);
    OrEmptyOrNull(f.birthDate);
    OrEmptyOrNull(f.address);
    OrEmptyOrNull(f.phone);
    OrEmptyOrNull(f.paymentMethod);
    OrEmptyOrNull(f.collectionMethod);
    assert FormOf(saved).province == f.province;
  }

  /** No optional text column of the profile holds the empty string. */
  predicate NoEmptyText(p: Profile) {
    p.dniNie != Some("") && p.birthDate != Some("") && p.address != Some("")
    && p.phone != Some("") && p.paymentMethod != Some("") && p.collectionMethod != Some("")
  }

  /**
   * Saving the form exactly as it was read is accepted, and leaves the row
   * as it was unless an optional column held the empty string, which the
   * save turns into `null`.
   */
  lemma {:induction false} LoadThenSave(p: Profile)
    ensures SavePatch(FormOf(p)).Success?
    ensures PatchProfile(p, SavePatch(FormOf(p)).value) == p <==> NoEmptyText(p)
  {
    StoredProvinceRoundTrip(p.province);
    var saved := PatchProfile(p, SavePatch(FormOf(p)).value);
    OrNullOrEmpty(p.dniNie);
    OrNullOrEmpty(p.birthDate);
    OrNullOrEmpty(p.address);
    OrNullOrEmpty(p.phone);
    OrNullOrEmpty(p.paymentMethod);
    OrNullOrEmpty(p.collectionMethod);
    assert saved.province == p.province;
    if saved == p {
      assert saved.dniNie == p.dniNie && saved.birthDate == p.birthDate && saved.address == p.address;
      assert saved.phone == p.phone && saved.paymentMethod == p.paymentMethod;
      assert saved.collectionMethod == p.collectionMethod;
    }
  }

  /** The user's stored profile shows as the form, email aside. */
  ghost predicate Shows(t: Tables, u: Id, f: ProfileForm) {
    forall k | k in t.profiles && t.profiles[k].userId == u :: FormOf(t.profiles[k]) == f.(email := t.profiles[k].email)
  }

  /** A successful save by `user_id` leaves the user's profile showing the saved form. */
  lemma {:induction false} SavedProfileShowsForm(t: Tables, u: Id, f: ProfileForm)
    requires ProvinceOffered(f.province)
    ensures SavePatch(f).Success?
    ensures Shows(AfterUpdateProfiles(t, ByUserId(u), SavePatch(f).value, None).after, u, f)
  {
    OfferedProvinceRoundTrip(f.province);
    var t2 := AfterUpdateProfiles(t, ByUserId(u), SavePatch(f).value, None).after;
    forall k | k in t2.profiles && t2.profiles[k].userId == u
      ensures FormOf(t2.profiles[k]) == f.(email := t2.profiles[k].email)
    {
      assert t2.profiles[k] == PatchProfile(t.profiles[k], SavePatch(f).value);
      SaveThenLoad(t.profiles[k], f);
    }
  }

  /** The page's state. */
  class ProfileView {
    var form: ProfileForm
    var loading: bool
    var saving: bool

    constructor ()
      ensures form == BlankForm && loading && !saving
    {
      form, loading, saving := BlankForm, true, false;
    }

    /**
     * `fetchProfile`, run once a user is signed in: a found row fills the
     * form, a missing row or a failed read keeps it; loading ends.
     */
    method FetchProfile(db: Database, user: Option<Id>, answer: Result<Option<Profile>, DbError>)
      requires user.Some? ==> ProfileOfUserAnswer(db.tables, user.value, answer)
      modifies this`form, this`loading
      ensures user.None? ==> form == old(form) && loading == old(loading)
      ensures user.Some? ==>
        (!loading && form == if answer.Success? && answer.value.Some? then FormOf(answer.value.value) else old(form))
      ensures OneProfilePerUser(db.tables) && user.Some? && answer.Success? && answer.value.Some? ==>
        Shows(db.tables, user.value, form)
    {
      if user.None? {
        return;
      }
      if answer.Success? && answer.value.Some? {
        form := FormOf(answer.value.value);
      }
      if OneProfilePerUser(db.tables) && answer.Success? && answer.value.Some? {
        var row := answer.value.value;
        forall k | k in db.tables.profiles && db.tables.profiles[k].userId == user.value
          ensures FormOf(db.tables.profiles[k]) == form.(email := db.tables.profiles[k].email)
        {
          var j :| j in db.tables.profiles && db.tables.profiles[j] == row;
          assert j == k;
        }
      }
      loading := false;
    }

    /** The text fields' `onChange` and the province select: the form takes the typed values; the email is never edited. */
    method Edit(f: ProfileForm)
      modifies this`form
      ensures form == f.(email := old(form).email)
    {
      form := f.(email := form.email);
    }

    /**
     * `handleSave`: with nobody signed in `user!.id` throws before the
     * write; otherwise the form is written to every profile of the user,
     * unless the province key is refused. `ok` reports the success toast.
     */
    method Save(db: Database, user: Option<Id>, fault: Option<DbError>) returns (ok: bool)
      requires Valid(db.tables)
      modifies this`saving, db
      ensures Valid(db.tables) && !saving
      ensures user.None? || SavePatch(form).Failure? ==> db.tables == old(db.tables) && !ok
      ensures user.Some? && SavePatch(form).Success? ==>
        (db.tables == AfterUpdateProfiles(old(db.tables), ByUserId(user.value), SavePatch(form).value, fault).after
         && (ok <==> fault.None?))
      ensures ok && ProvinceOffered(form.province) ==> Shows(db.tables, user.value, form)
    {
      saving := true;
      ok := false;
      if user.Some? {
        match SavePatch(form)
        case Success(patch) =>
          var error := db.UpdateProfiles(ByUserId(user.value), patch, fault);
          ok := error.None?;
          if ok && ProvinceOffered(form.province) {
            SavedProfileShowsForm(old(db.tables), user.value, form);
          }
        case Failure(_) =>
      }
      saving := false;
    }
  }
}
