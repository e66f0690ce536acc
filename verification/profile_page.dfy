/** The profile edit form (`ProfilePage.js`): load `userData/uid` into five
    fields with empty defaults, and merge the five fields back on submit. */
module ProfilePage {
  import opened Opt
  import opened Services

  datatype Form = Form(
    name: string,
    age: string,
    jobRole: string,
    interestedCourses: string,
    likedCourses: string,
    error: string)

  /** Every field at `''`, no error message. */
  const Empty := Form("", "", "", "", "", "")

  const FetchFailedMessage := "Failed to fetch user data. Please try again."
  const LoginRequiredMessage := "You must be logged in to save your profile."
  const SaveFailedMessage := "Failed to save profile data. Please try again."

  /** The field names this form writes. */
  const EditFields: set<string> := {"name", "age", "jobRole", "interestedCourses", "likedCourses"}

  /** `data.field || ''`: a missing field, or an empty string, reads as `''`. */
  function FieldOr(data: Fields<string>, field: string): (v: string)
    ensures field in data ==> v == data[field]
    ensures field !in data ==> v == ""
  {
    if field in data && data[field] != "" then data[field] else ""
  }

  /** The form filled from a stored document: each of the five fields from
      the document, `''` where the document lacks it, and no error. */
  function FromDoc(data: Fields<string>): (f: Form)
    ensures f.error == ""
    ensures f.name == (if "name" in data then data["name"] else "")
    ensures f.age == (if "age" in data then data["age"] else "")
    ensures f.jobRole == (if "jobRole" in data then data["jobRole"] else "")
    ensures f.interestedCourses == (if "interestedCourses" in data then data["interestedCourses"] else "")
    ensures f.likedCourses == (if "likedCourses" in data then data["likedCourses"] else "")
  {
    Form(FieldOr(data, "name"), FieldOr(data, "age"), FieldOr(data, "jobRole"),
         FieldOr(data, "interestedCourses"), FieldOr(data, "likedCourses"), "")
  }

  /** The document the form merges into `userData/uid`: the five field
      names, which read back as the form's values. */
  function ToDoc(f: Form): (d: Fields<string>)
    ensures d.Keys == EditFields
    ensures FromDoc(d) == f.(error := "")
  {
    map["name" := f.name, "age" := f.age, "jobRole" := f.jobRole,
        "interestedCourses" := f.interestedCourses, "likedCourses" := f.likedCourses]
  }

  /** `fetchUserData` on mount: without a signed-in user, redirect to the
      sign-in page (replacing history) and read nothing; otherwise read
      `userData/uid`, fill the fields from an existing document, keep the
      defaults for an absent one, and set the fetch error on a failed read. */
  function Mount(session: Session, store: Store, readOk: bool): (r: Step<Form>)
    ensures r.store == store
    ensures session.None? ==> r.state == Empty && r.effects == [Navigate(SignInPath, true)]
    ensures session.Some? ==> r.effects == [Read(UserData, session.value.uid)]
    ensures session.Some? && !readOk ==> r.state == Empty.(error := FetchFailedMessage)
    ensures session.Some? && readOk && session.value.uid !in store.userData ==> r.state == Empty
    ensures session.Some? && readOk && session.value.uid in store.userData ==>
      var data := store.userData[session.value.uid];
      && r.state.error == ""
      && r.state.name == (if "name" in data then data["name"] else "")
      && r.state.age == (if "age" in data then data["age"] else "")
      && r.state.jobRole == (if "jobRole" in data then data["jobRole"] else "")
      && r.state.interestedCourses == (if "interestedCourses" in data then data["interestedCourses"] else "")
      && r.state.likedCourses == (if "likedCourses" in data then data["likedCourses"] else "")
  {
    match session
    case None => Step(Empty, store, [Navigate(SignInPath, true)])
    case Some(user) =>
      var form :=
        match GetDoc(store.userData, user.uid, readOk)
        case Exists(data) => FromDoc(data)
        case Absent => Empty
        case ReadFailed => Empty.(error := FetchFailedMessage);
      Step(form, store, [Read(UserData, user.uid)])
  }

  /** `handleSubmit`: with no signed-in user, set the login error and write
      nothing; otherwise merge the five fields into `userData/uid`, then go to
      the dashboard (replacing history) on success or set the save error on
      failure. */
  function Submit(f: Form, session: Session, store: Store, writeOk: bool): (r: Step<Form>)
    ensures r.store.recommendations == store.recommendations && r.store.feedback == store.feedback
    ensures session.None? ==>
      r.state == f.(error := LoginRequiredMessage) && r.store == store && r.effects == []
    ensures session.Some? && !writeOk ==>
      && r.state == f.(error := SaveFailedMessage) && r.store == store
      && r.effects == [Write(UserData, session.value.uid, true)]
    ensures session.Some? && writeOk ==>
      && r.state == f
      && r.effects == [Write(UserData, session.value.uid, true), Navigate(DashboardPath, true)]
      && r.store.userData == SetDoc(store.userData, session.value.uid, ToDoc(f), true)
  {
    match session
    case None => Step(f.(error := LoginRequiredMessage), store, [])
    case Some(user) =>
      var write := Write(UserData, user.uid, true);
      if writeOk then
        Step(f, store.(userData := SetDoc(store.userData, user.uid, ToDoc(f), true)),
             [write, Navigate(DashboardPath, true)])
      else
        Step(f.(error := SaveFailedMessage), store, [write])
  }

  /** A successful save writes exactly the five edit fields: every other field
      of the user's document, and every other user's document, is unchanged. */
  lemma SaveKeepsOtherFields(f: Form, user: Identity, store: Store)
    ensures var docs := Submit(f, Some(user), store, true).store.userData;
      && (forall k :: k in store.userData && k != user.uid ==> docs[k] == store.userData[k])
      && (forall field :: user.uid in store.userData && field in store.userData[user.uid] && field !in EditFields
            ==> field in docs[user.uid] && docs[user.uid][field] == store.userData[user.uid][field])
      && docs[user.uid].Keys == EditFields + (if user.uid in store.userData then store.userData[user.uid].Keys else {})
  {
  }

  /** Saving then reloading gives back the five fields that were saved, with
      no error. */
  lemma SaveThenLoad(f: Form, user: Identity, store: Store)
    ensures var saved := Submit(f, Some(user), store, true).store;
      Mount(Some(user), saved, true).state == f.(error := "")
  {
    var doc := Submit(f, Some(user), store, true).store.userData[user.uid];
    assert doc["name"] == f.name && doc["age"] == f.age && doc["jobRole"] == f.jobRole;
    assert doc["interestedCourses"] == f.interestedCourses && doc["likedCourses"] == f.likedCourses;
  }
}
