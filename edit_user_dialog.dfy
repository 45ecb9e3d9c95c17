/**
 * The admin's dialog that edits a user's profile
 * (`src/components/admin/EditUserDialog.tsx`): a partial copy of the
 * profile that the fields edit, seeded when the dialog reports itself
 * opened, and the update by profile id that writes the copy back as typed,
 * with no conversion of empty fields to `null`.
 */
module EditUser {
  import opened Wrappers
  import opened Schema
  import opened Store

  /** `Partial<Profile>`: each editable column the form may or may not hold. */
  datatype ProfileDraft = ProfileDraft(
    firstName: Option<string>,
    lastName: Option<string>,
    email: Option<string>,
    phone: Option<Option<string>>,
    dniNie: Option<Option<string>>,
    address: Option<Option<string>>,
    province: Option<Option<Province>>,
    birthDate: Option<Option<string>>,
    accountStatus: Option<Option<AccountStatus>>,
    paymentMethod: Option<Option<string>>,
    collectionMethod: Option<Option<string>>)

  /** `useState<Partial<Profile>>({})`. */
  const EmptyDraft: ProfileDraft := ProfileDraft(None, None, None, None, None, None, None, None, None, None, None)

  /** `setFormData({ ...user })`: every editable column of the profile. */
  function Seed(p: Profile): ProfileDraft {
    ProfileDraft(Some(p.firstName), Some(p.lastName), Some(p.email), Some(p.phone), Some(p.dniNie),
                 Some(p.address), Some(p.province), Some(p.birthDate), Some(p.accountStatus),
                 Some(p.paymentMethod), Some(p.collectionMethod))
  }

  /** One field's `onChange`; a text field takes the typed string as is, `""` included. */
  datatype UserEdit =
    | SetFirstName(firstName: string)
    | SetLastName(lastName: string)
    | SetEmail(email: string)
    | SetPhone(phone: string)
    | SetDniNie(dniNie: string)
    | SetBirthDate(birthDate: string)
    | SetAddress(address: string)
    | SetProvince(province: Province)
    | SetAccountStatus(status: AccountStatus)
    | SetPaymentMethod(paymentMethod: string)
    | SetCollectionMethod(collectionMethod: string)

  /** `setFormData({ ...formData, field: value })`. */
  function Applied(d: ProfileDraft, e: UserEdit): ProfileDraft {
    match e
    case SetFirstName(x) => d.(firstName := Some(x))
    case SetLastName(x) => d.(lastName := Some(x))
    case SetEmail(x) => d.(email := Some(x))
    case SetPhone(x) => d.(phone := Some(Some(x)))
    case SetDniNie(x) => d.(dniNie := Some(Some(x)))
    case SetBirthDate(x) => d.(birthDate := Some(Some(x)))
    case SetAddress(x) => d.(address := Some(Some(x)))
    case SetProvince(x) => d.(province := Some(Some(x)))
    case SetAccountStatus(x) => d.(accountStatus := Some(Some(x)))
    case SetPaymentMethod(x) => d.(paymentMethod := Some(Some(x)))
    case SetCollectionMethod(x) => d.(collectionMethod := Some(Some(x)))
  }

  /** The edits one after another. */
  function AppliedAll(d: ProfileDraft, es: seq<UserEdit>): ProfileDraft
    decreases |es|
  {
    if es == [] then d else AppliedAll(Applied(d, es[0]), es[1..])
  }

  /** The profile the admin means by an edit: the same column set on the row itself. */
  function Edited(p: Profile, e: UserEdit): Profile {
    match e
    case SetFirstName(x) => p.(firstName := x)
    case SetLastName(x) => p.(lastName := x)
    case SetEmail(x) => p.(email := x)
    case SetPhone(x) => p.(phone := Some(x))
    case SetDniNie(x) => p.(dniNie := Some(x))
    case SetBirthDate(x) => p.(birthDate := Some(x))
    case SetAddress(x) => p.(address := Some(x))
    case SetProvince(x) => p.(province := Some(x))
    case SetAccountStatus(x) => p.(accountStatus := Some(x))
    case SetPaymentMethod(x) => p.(paymentMethod := Some(x))
    case SetCollectionMethod(x) => p.(collectionMethod := Some(x))
  }

  /** The edits one after another, on the row. */
  function EditedAll(p: Profile, es: seq<UserEdit>): Profile
    decreases |es|
  {
    if es == [] then p else EditedAll(Edited(p, es[0]), es[1..])
  }

  /** The object passed to `update`: the eleven columns, an absent one left out of the request. */
  function UpdatePayload(d: ProfileDraft): ProfilePatch {
    ProfilePatch(d.firstName, d.lastName, d.email, d.phone, d.dniNie, d.address, d.province,
                 d.birthDate, d.accountStatus, d.paymentMethod, d.collectionMethod)
  }

  /** Editing a seeded draft is seeding from the edited row, and never touches the row's identity. */
  lemma {:induction false} SeedCommutes(p: Profile, es: seq<UserEdit>)
    ensures AppliedAll(Seed(p), es) == Seed(EditedAll(p, es))
    ensures EditedAll(p, es).id == p.id && EditedAll(p, es).userId == p.userId
    ensures EditedAll(p, es).createdAt == p.createdAt
    decreases |es|
  {
    if es != [] {
      assert Applied(Seed(p), es[0]) == Seed(Edited(p, es[0]));
      SeedCommutes(Edited(p, es[0]), es[1..]);
    }
  }

  /** Saving a freshly seeded draft writes the row back unchanged. */
  lemma SeededSaveKeepsProfile(p: Profile)
    ensures PatchProfile(p, UpdatePayload(Seed(p))) == p
  {
  }

  /** Saving a seeded draft after some edits writes exactly those edits to the row. */
  lemma {:induction false} SeededSaveWritesEdits(p: Profile, es: seq<UserEdit>)
    ensures PatchProfile(p, UpdatePayload(AppliedAll(Seed(p), es))) == EditedAll(p, es)
  {
    SeedCommutes(p, es);
    var e := EditedAll(p, es);
    SeededSaveKeepsProfile(e);
    assert PatchProfile(p, UpdatePayload(Seed(e))) == PatchProfile(e, UpdatePayload(Seed(e)));
  }

  /** Any account status can be set, `pending` included; a cleared text field is stored as `""`, not `null`. */
  lemma EditsStoredAsTyped(p: Profile, s: AccountStatus)
    ensures PatchProfile(p, UpdatePayload(Applied(Seed(p), SetAccountStatus(s)))).accountStatus == Some(s)
    ensures PatchProfile(p, UpdatePayload(Applied(Seed(p), SetPhone("")))).phone == Some("")
    ensures PatchProfile(p, UpdatePayload(Applied(Seed(p), SetDniNie("")))).dniNie == Some("")
  {
  }

  /** A draft that was never seeded and never edited writes nothing. */
  lemma UnseededSaveKeepsProfile(p: Profile)
    ensures PatchProfile(p, UpdatePayload(EmptyDraft)) == p
  {
  }

  /** One more edit to any draft writes that edit on top of what the draft wrote before. */
  lemma SaveAfterEdit(p: Profile, d: ProfileDraft, e: UserEdit)
    ensures PatchProfile(p, UpdatePayload(Applied(d, e))) == Edited(PatchProfile(p, UpdatePayload(d)), e)
  {
  }

  /** Edits to any draft are written on top of what the draft wrote before them. */
  lemma {:induction false} SaveAfterEdits(p: Profile, d: ProfileDraft, es: seq<UserEdit>)
    ensures PatchProfile(p, UpdatePayload(AppliedAll(d, es))) == EditedAll(PatchProfile(p, UpdatePayload(d)), es)
    decreases |es|
  {
    if es != [] {
      SaveAfterEdit(p, d, es[0]);
      SaveAfterEdits(p, Applied(d, es[0]), es[1..]);
    }
  }

  /**
   * The users page never seeds the draft, so it keeps what was typed while
   * the dialog showed an earlier profile: saving on the next profile `q`
   * writes those earlier edits `earlier` to `q` before its own edits `own`.
   */
  lemma {:induction false} StaleEditsReachNextProfile(q: Profile, earlier: seq<UserEdit>, own: seq<UserEdit>)
    ensures PatchProfile(q, UpdatePayload(AppliedAll(AppliedAll(EmptyDraft, earlier), own)))
         == EditedAll(EditedAll(q, earlier), own)
  {
    UnseededSaveKeepsProfile(q);
    SaveAfterEdits(q, EmptyDraft, earlier);
    SaveAfterEdits(q, AppliedAll(EmptyDraft, earlier), own);
  }

  /** The dialog's state, with the profile and the open flag its owner passes in. */
  class EditUserDialog {
    var user: Option<Profile>
    var open: bool
    var loading: bool
    var draft: ProfileDraft

    constructor ()
      ensures user.None? && !open && !loading && draft == EmptyDraft
    {
      user, open, loading, draft := None, false, false, EmptyDraft;
    }

    /**
     * `handleEditUser` of the users page: the profile and `open` are set
     * directly, so `handleOpen` does not run and the draft is whatever it
     * held before.
     */
    method ShowFor(p: Profile)
      modifies this`user, this`open
      ensures user == Some(p) && open
    {
      user, open := Some(p), true;
    }

    /** `handleOpen`: opening on a profile seeds the draft from it; the flag follows. */
    method HandleOpen(isOpen: bool)
      modifies this`draft, this`open
      ensures open == isOpen
      ensures draft == if isOpen && user.Some? then Seed(user.value) else old(draft)
    {
      if isOpen && user.Some? {
        draft := Seed(user.value);
      }
      open := isOpen;
    }

    /** Opening the dialog on a profile so that it is seeded. */
    method OpenFor(p: Profile)
      modifies this`user, this`open, this`draft
      ensures user == Some(p) && open && draft == Seed(p)
    {
      ShowFor(p);
      HandleOpen(true);
    }

    /** A field's `onChange`. */
    method Edit(e: UserEdit)
      modifies this`draft
      ensures draft == Applied(old(draft), e)
    {
      draft := Applied(draft, e);
    }

    /**
     * `handleSubmit`: with no profile nothing happens; otherwise the draft
     * is written to the row with the profile's id, and on success `onSave`
     * is called (`saved`) and the dialog closes; on failure it stays open.
     */
    method Submit(db: Database, fault: Option<DbError>) returns (saved: bool)
      requires Valid(db.tables)
      modifies this`loading, this`open, db
      ensures Valid(db.tables)
      ensures user.None? ==> !saved && db.tables == old(db.tables) && open == old(open) && loading == old(loading)
      ensures user.Some? ==>
        (db.tables == AfterUpdateProfiles(old(db.tables), ById(user.value.id), UpdatePayload(draft), fault).after
         && !loading && (saved <==> fault.None?) && open == (old(open) && !saved))
      ensures user.Some? && user.value.id in old(db.tables).profiles && saved ==>
        forall es | draft == AppliedAll(Seed(old(db.tables).profiles[user.value.id]), es) ::
          db.tables.profiles[user.value.id] == EditedAll(old(db.tables).profiles[user.value.id], es)
    {
      saved := false;
      if user.None? {
        return;
      }
      loading := true;
      var id := user.value.id;
      ghost var before := db.tables;
      var error := db.UpdateProfiles(ById(id), UpdatePayload(draft), fault);
      if error.None? {
        saved := true;
        open := false;
        if id in before.profiles {
          assert before.profiles[id].id == id;
          forall es | draft == AppliedAll(Seed(before.profiles[id]), es)
            ensures db.tables.profiles[id] == EditedAll(before.profiles[id], es)
          {
            SeededSaveWritesEdits(before.profiles[id], es);
          }
        }
      }
      loading := false;
    }
  }
}
