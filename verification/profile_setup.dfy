/** The first-time profile form (`ProfileSetup.js`): an auth observer that
    redirects signed-out viewers, and a submit that overwrites `userData/uid`,
    then asks the recommender for this uid, then goes to the dashboard. */
module ProfileSetup {
  import opened Opt
  import opened Services

  datatype State = State(careerGoals: string, skills: string, interests: string, error: string, user: Session)

  const Initial := State("", "", "", "", None)

  const LoginRequiredMessage := "You must be logged in to save your profile."
  const SubmitFailedMessage := "Failed to save profile or generate recommendations. Please try again."

  /** The field names this form writes. */
  const SetupFields: set<string> := {"careerGoals", "skills", "interests"}

  /** The document the form writes to `userData/uid`. */
  function ToDoc(s: State): (d: Fields<string>)
    ensures d.Keys == SetupFields
  {
    map["careerGoals" := s.careerGoals, "skills" := s.skills, "interests" := s.interests]
  }

  /** The `onAuthStateChanged` callback: no user means a redirect to the
      sign-in page replacing history; a user is stored. */
  function OnAuthChanged(s: State, session: Session): (r: (State, seq<Effect>))
    ensures session.None? ==> r.0 == s && r.1 == [Navigate(SignInPath, true)]
    ensures session.Some? ==> r.0 == s.(user := session) && r.1 == []
  {
    if session.None? then (s, [Navigate(SignInPath, true)]) else (s.(user := session), [])
  }

  /** `handleSubmit`. `writeOk` is the outcome of the `setDoc`, `responseOk`
      that of the recommend request (`response.ok`, false also for a rejected
      `fetch`). Each remote step runs only after the previous one succeeded,
      and any failure lands in the single error message. */
  function Submit(s: State, store: Store, writeOk: bool, responseOk: bool): (r: Step<State>)
    ensures r.store.recommendations == store.recommendations && r.store.feedback == store.feedback
    ensures r.state.careerGoals == s.careerGoals && r.state.skills == s.skills
    ensures r.state.interests == s.interests && r.state.user == s.user
    ensures s.user.None? ==>
      r.state == s.(error := LoginRequiredMessage) && r.store == store && r.effects == []
    ensures s.user.Some? && !writeOk ==>
      && r.state == s.(error := SubmitFailedMessage) && r.store == store
      && r.effects == [Write(UserData, s.user.value.uid, false)]
    ensures s.user.Some? && writeOk ==>
      && r.store.userData == store.userData[s.user.value.uid := ToDoc(s)]
      && |r.effects| >= 2 && r.effects[..2] == [Write(UserData, s.user.value.uid, false), Recommend(s.user.value.uid)]
    ensures s.user.Some? && writeOk && !responseOk ==>
      r.state == s.(error := SubmitFailedMessage) && |r.effects| == 2
    ensures s.user.Some? && writeOk && responseOk ==>
      r.state == s && r.effects == [Write(UserData, s.user.value.uid, false), Recommend(s.user.value.uid),
                                    Navigate(DashboardPath, true)]
  {
    match s.user
    case None => Step(s.(error := LoginRequiredMessage), store, [])
    case Some(user) =>
      var write := Write(UserData, user.uid, false);
      if !writeOk then
        Step(s.(error := SubmitFailedMessage), store, [write])
      else
        var written := store.(userData := SetDoc(store.userData, user.uid, ToDoc(s), false));
        if !responseOk then
          Step(s.(error := SubmitFailedMessage), written, [write, Recommend(user.uid)])
        else
          Step(s, written, [write, Recommend(user.uid), Navigate(DashboardPath, true)])
  }

  /** Ordering: the recommend request is issued only after a successful
      write, never without one, and a navigation happens exactly when both
      remote steps succeeded. */
  lemma SubmitOrdering(s: State, store: Store, writeOk: bool, responseOk: bool)
    ensures var e := Submit(s, store, writeOk, responseOk).effects;
      && (forall i :: 0 <= i < |e| && e[i].Recommend? ==>
            writeOk && i > 0 && e[i - 1] == Write(UserData, e[i].userId, false))
      && ((exists i :: 0 <= i < |e| && e[i].Navigate?) <==> s.user.Some? && writeOk && responseOk)
  {
    var e := Submit(s, store, writeOk, responseOk).effects;
    if s.user.Some? && writeOk && responseOk {
      assert e[2].Navigate?;
    }
  }

  /** The setup write replaces the whole document: fields the edit form had
      stored are gone afterwards. */
  lemma OverwriteDropsOtherFields(s: State, store: Store, responseOk: bool)
    requires s.user.Some?
    ensures var docs := Submit(s, store, true, responseOk).store.userData;
      && docs[s.user.value.uid].Keys == SetupFields
      && docs[s.user.value.uid]["careerGoals"] == s.careerGoals
      && docs[s.user.value.uid]["skills"] == s.skills
      && docs[s.user.value.uid]["interests"] == s.interests
      && forall k :: k in store.userData && k != s.user.value.uid ==> docs[k] == store.userData[k]
  {
  }
}
