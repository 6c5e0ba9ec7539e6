/**
 * Organisation settings on the client: the settings provider
 * (client/src/context/SettingsProvider.tsx), which keeps the application
 * name, logo, user accounts and doctors and restores them from browser
 * storage, and the settings page (client/src/pages/Settings.tsx), whose
 * forms feed it.  Storage itself is a parameter: what was stored, already
 * decoded.
 */
module Settings {
  import opened Wrappers
  import opened Strings

  datatype UserAccount = UserAccount(email: string, password: string)

  datatype DoctorInfo = DoctorInfo(name: string, department: string)

  datatype SettingsState = SettingsState(
    appName: string,
    logo: Option<string>,
    users: seq<UserAccount>,
    doctors: seq<DoctorInfo>)

  const DefaultAppName := "EMR System"

  const InitialSettings := SettingsState(DefaultAppName, None, [], [])

  // ---------------------------------------------------------------------
  // The provider
  // ---------------------------------------------------------------------

  /**
   * The argument of `updateSettings`: an absent field is `None`; the logo
   * may be given as `null`, hence the nested option.
   */
  datatype SettingsUpdate = SettingsUpdate(appName: Option<string>, logo: Option<Option<string>>)

  /** `updateSettings(data)`: only the fields given change. */
  function UpdateSettings(s: SettingsState, data: SettingsUpdate): (r: SettingsState)
    ensures r.appName == if data.appName.Some? then data.appName.value else s.appName
    ensures r.logo == if data.logo.Some? then data.logo.value else s.logo
    ensures r.users == s.users && r.doctors == s.doctors
  {
    s.(appName := data.appName.GetOr(s.appName), logo := data.logo.GetOr(s.logo))
  }

  /** `addUser(user)`: appended at the end. */
  function AddUser(s: SettingsState, u: UserAccount): (r: SettingsState)
    ensures |r.users| == |s.users| + 1 && r.users[..|s.users|] == s.users && r.users[|s.users|] == u
    ensures r.(users := s.users) == s
  {
    s.(users := s.users + [u])
  }

  /** `addDoctor(doctor)`: appended at the end. */
  function AddDoctor(s: SettingsState, d: DoctorInfo): (r: SettingsState)
    ensures |r.doctors| == |s.doctors| + 1 && r.doctors[..|s.doctors|] == s.doctors && r.doctors[|s.doctors|] == d
    ensures r.(doctors := s.doctors) == s
  {
    s.(doctors := s.doctors + [d])
  }

  /**
   * What `JSON.parse` made of the stored settings, field by field: a
   * string field that is absent, null or not a string is `None`, and a list
   * that is not an array is `None`.
   */
  datatype StoredSettings = StoredSettings(
    appName: Option<string>,
    logo: Option<string>,
    users: Option<seq<UserAccount>>,
    doctors: Option<seq<DoctorInfo>>)

  /**
   * The restore effect.  `stored` is `None` when nothing usable was stored:
   * no entry, an empty one, or one that does not parse to an object.  Only
   * a non-empty name or logo and array-valued lists replace what is there.
   */
  function Restore(s: SettingsState, stored: Option<StoredSettings>): (r: SettingsState)
    ensures stored.None? ==> r == s
    ensures stored.Some? ==> r.appName == if Given(stored.value.appName) then stored.value.appName.value else s.appName
    ensures stored.Some? ==> r.logo == if Given(stored.value.logo) then stored.value.logo else s.logo
    ensures stored.Some? ==> r.users == stored.value.users.GetOr(s.users)
    ensures stored.Some? ==> r.doctors == stored.value.doctors.GetOr(s.doctors)
  {
    match stored
    case None => s
    case Some(p) =>
      SettingsState(
        if Given(p.appName) then p.appName.value else s.appName,
        if Given(p.logo) then p.logo else s.logo,
        p.users.GetOr(s.users),
        p.doctors.GetOr(s.doctors))
  }

  /** What the persisting effect writes: every field, as it is. */
  function Persist(s: SettingsState): (r: StoredSettings)
    ensures r.appName == Some(s.appName) && r.logo == s.logo
    ensures r.users == Some(s.users) && r.doctors == Some(s.doctors)
  {
    StoredSettings(Some(s.appName), s.logo, Some(s.users), Some(s.doctors))
  }

  /**
   * Reloading restores what was persisted, except that an empty name or an
   * empty logo falls back to the default.
   */
  lemma ReloadRestores(s: SettingsState)
    ensures Restore(InitialSettings, Some(Persist(s))).users == s.users
    ensures Restore(InitialSettings, Some(Persist(s))).doctors == s.doctors
    ensures s.appName != "" && (s.logo.None? || s.logo.value != "") ==>
      Restore(InitialSettings, Some(Persist(s))) == s
    ensures s.appName == "" ==> Restore(InitialSettings, Some(Persist(s))).appName == DefaultAppName
  {
  }

  /** Restoring the same stored settings twice has no further effect. */
  lemma RestoreIdempotent(s: SettingsState, stored: Option<StoredSettings>)
    ensures Restore(Restore(s, stored), stored) == Restore(s, stored)
  {
  }

  // ---------------------------------------------------------------------
  // The page
  // ---------------------------------------------------------------------

  datatype PageForms = PageForms(
    name: string,
    email: string,
    password: string,
    doctorName: string,
    doctorDepartment: string)

  /** The name form starts from the current name; the other forms start empty. */
  function OpenPage(s: SettingsState): (p: PageForms)
    ensures p.name == s.appName && p.email == "" && p.password == ""
    ensures p.doctorName == "" && p.doctorDepartment == ""
  {
    PageForms(s.appName, "", "", "", "")
  }

  /** `handleSave`: the trimmed name, or the default name when it is blank. */
  function HandleSave(s: SettingsState, p: PageForms): (r: SettingsState)
    ensures r.appName == if Trim(p.name) != "" then Trim(p.name) else DefaultAppName
    ensures r.appName != "" && Trimmed(r.appName)
    ensures r.(appName := s.appName) == s
  {
    var chosen := if Trim(p.name) != "" then Trim(p.name) else DefaultAppName;
    assert Trimmed(DefaultAppName) by {
      assert !IsSpace(DefaultAppName[0]) && !IsSpace(DefaultAppName[|DefaultAppName| - 1]);
    }
    UpdateSettings(s, SettingsUpdate(Some(chosen), None))
  }

  /** The logo picked in the page, once the file has been read as a data URL. */
  function HandleLogoLoaded(s: SettingsState, dataUrl: string): (r: SettingsState)
    ensures r == s.(logo := Some(dataUrl))
  {
    UpdateSettings(s, SettingsUpdate(None, Some(Some(dataUrl))))
  }

  /** `handleAddUser`: ignored for a blank email; otherwise the trimmed email and the password as typed. */
  function HandleAddUser(s: SettingsState, p: PageForms): (r: (SettingsState, PageForms))
    ensures Trim(p.email) == "" ==> r == (s, p)
    ensures Trim(p.email) != "" ==> r.0 == AddUser(s, UserAccount(Trim(p.email), p.password))
    ensures Trim(p.email) != "" ==> r.1 == p.(email := "", password := "")
  {
    if Trim(p.email) == "" then (s, p)
    else (AddUser(s, UserAccount(Trim(p.email), p.password)), p.(email := "", password := ""))
  }

  /** `handleAddDoctor`: ignored unless both fields have text; the stored values are trimmed. */
  function HandleAddDoctor(s: SettingsState, p: PageForms): (r: (SettingsState, PageForms))
    ensures Trim(p.doctorName) == "" || Trim(p.doctorDepartment) == "" ==> r == (s, p)
    ensures Trim(p.doctorName) != "" && Trim(p.doctorDepartment) != "" ==>
      r.0 == AddDoctor(s, DoctorInfo(Trim(p.doctorName), Trim(p.doctorDepartment)))
    ensures Trim(p.doctorName) != "" && Trim(p.doctorDepartment) != "" ==>
      r.1 == p.(doctorName := "", doctorDepartment := "")
  {
    if Trim(p.doctorName) == "" || Trim(p.doctorDepartment) == "" then (s, p)
    else (AddDoctor(s, DoctorInfo(Trim(p.doctorName), Trim(p.doctorDepartment))),
          p.(doctorName := "", doctorDepartment := ""))
  }

  /** The latest entry of a list: its last element, or none for an empty list. */
  function Latest<T>(items: seq<T>): (r: Option<T>)
    ensures r.None? <==> |items| == 0
    ensures r.Some? ==> r.value == items[|items| - 1]
  {
    if |items| > 0 then Some(items[|items| - 1]) else None
  }

  // ---------------------------------------------------------------------
  // Properties
  // ---------------------------------------------------------------------

  /** An account as the page adds it: a non-blank, trimmed email. */
  predicate CleanUser(u: UserAccount) {
    u.email != "" && Trimmed(u.email)
  }

  /** A doctor as the page adds it: a non-blank, trimmed name and department. */
  predicate CleanDoctor(d: DoctorInfo) {
    d.name != "" && Trimmed(d.name) && d.department != "" && Trimmed(d.department)
  }

  /** Every account added from the page has a non-blank, trimmed email. */
  predicate CleanUsers(s: SettingsState) {
    forall i :: 0 <= i < |s.users| ==> CleanUser(s.users[i])
  }

  /** Every doctor added from the page has a non-blank, trimmed name and department. */
  predicate CleanDoctors(s: SettingsState) {
    forall i :: 0 <= i < |s.doctors| ==> CleanDoctor(s.doctors[i])
  }

  /** Adding a user from the page keeps the accounts clean and leaves the doctors alone. */
  lemma AddUserKeepsClean(s: SettingsState, p: PageForms)
    requires CleanUsers(s)
    ensures CleanUsers(HandleAddUser(s, p).0)
    ensures HandleAddUser(s, p).0.doctors == s.doctors
  {
    if Trim(p.email) != "" {
      var u := UserAccount(Trim(p.email), p.password);
      assert CleanUser(u);
      AppendKeepsClean(s.users, u, CleanUser);
    }
  }

  /** Adding a doctor from the page keeps the doctors clean and leaves the accounts alone. */
  lemma AddDoctorKeepsClean(s: SettingsState, p: PageForms)
    requires CleanDoctors(s)
    ensures CleanDoctors(HandleAddDoctor(s, p).0)
    ensures HandleAddDoctor(s, p).0.users == s.users
  {
    if Trim(p.doctorName) != "" && Trim(p.doctorDepartment) != "" {
      var d := DoctorInfo(Trim(p.doctorName), Trim(p.doctorDepartment));
      assert CleanDoctor(d);
      AppendKeepsClean(s.doctors, d, CleanDoctor);
    }
  }

  /** A property every entry of a list has, and the appended entry has, holds of the longer list. */
  lemma AppendKeepsClean<T>(xs: seq<T>, x: T, clean: T -> bool)
    requires forall i :: 0 <= i < |xs| ==> clean(xs[i])
    requires clean(x)
    ensures forall i :: 0 <= i < |xs + [x]| ==> clean((xs + [x])[i])
  {
  }

  /** A user just added is the one shown as the most recent invite. */
  lemma AddedUserIsLatest(s: SettingsState, p: PageForms)
    requires Trim(p.email) != ""
    ensures Latest(HandleAddUser(s, p).0.users) == Some(UserAccount(Trim(p.email), p.password))
  {
  }

  /** A doctor just added is the one shown as the latest doctor. */
  lemma AddedDoctorIsLatest(s: SettingsState, p: PageForms)
    requires Trim(p.doctorName) != "" && Trim(p.doctorDepartment) != ""
    ensures Latest(HandleAddDoctor(s, p).0.doctors) == Some(DoctorInfo(Trim(p.doctorName), Trim(p.doctorDepartment)))
  {
  }

  /** Saving the name the page opened with, when that name is already trimmed, changes nothing. */
  lemma SaveUnchangedNameIsNoOp(s: SettingsState)
    requires s.appName != "" && Trimmed(s.appName)
    ensures HandleSave(s, OpenPage(s)) == s
  {
  }

  /** A saved name survives a reload, since a saved name is never empty. */
  lemma SavedNameSurvivesReload(s: SettingsState, p: PageForms)
    ensures Restore(InitialSettings, Some(Persist(HandleSave(s, p)))).appName == HandleSave(s, p).appName
  {
  }
}
