/** How the views and the recommendation service meet in the shared store:
    the setup write feeds the recommender, whose saved list feeds the
    Dashboard, and the two profile editors see each other's writes. */
module Flows {
  import opened Opt
  import opened Services
  import opened Text
  import ProfileSetup
  import ProfilePage
  import Dashboard
  import Recommender

  /** A successful setup write makes the `/recommend` call for the same uid
      succeed (the document it wrote is never empty), the server scores the
      answers as goals, interests, skills, and the Dashboard then opens on the
      best-scored course, or on "no courses" for an empty catalogue. */
  lemma SetupThenDashboard(s: ProfileSetup.State, store: Store, catalog: seq<Course>,
                           similarity: (string, string) -> int)
    requires s.user.Some? && s.user.value.uid != ""
    ensures var uid := s.user.value.uid;
      var written := ProfileSetup.Submit(s, store, true, true).store;
      var served := Recommender.GetRecommendations(written, Some(uid), catalog, similarity);
      var dash := Dashboard.OnAuthChangedReset(Dashboard.Initial, s.user, served.1, true).state;
      && Recommender.UserProfile(written.userData[uid]) == Join3(s.careerGoals, s.interests, s.skills)
      && served.0.status == 200
      && (|catalog| == 0 ==> Dashboard.Render(dash) == Dashboard.NoCourses)
      && (|catalog| > 0 ==> Dashboard.Render(dash) == Dashboard.Showing(served.0.body.courses[0], 0))
  {
    var uid := s.user.value.uid;
    var written := ProfileSetup.Submit(s, store, true, true).store;
    var doc := written.userData[uid];
    assert doc == ProfileSetup.ToDoc(s);
    assert "careerGoals" in doc;
    assert doc != map[];
  }

  /** Every list the recommendation service saves from one catalogue has the
      same length, whichever user and profile it was computed for. */
  lemma SameCatalogSameLength(store1: Store, id1: Option<string>, store2: Store, id2: Option<string>,
                              catalog: seq<Course>, similarity: (string, string) -> int)
    ensures var r1 := Recommender.GetRecommendations(store1, id1, catalog, similarity).0;
      var r2 := Recommender.GetRecommendations(store2, id2, catalog, similarity).0;
      r1.status == 200 && r2.status == 200 ==> |r1.body.courses| == |r2.body.courses|
  {
  }

  /** The edit form never touches the three setup answers, so the profile
      text the recommender scores is the same after an edit-form save. */
  lemma EditKeepsRecommenderProfile(f: ProfilePage.Form, user: Identity, store: Store)
    requires user.uid in store.userData
    ensures var saved := ProfilePage.Submit(f, Some(user), store, true).store;
      Recommender.UserProfile(saved.userData[user.uid]) == Recommender.UserProfile(store.userData[user.uid])
  {
    ProfilePage.SaveKeepsOtherFields(f, user, store);
    assert "careerGoals" !in ProfilePage.EditFields;
    assert "interests" !in ProfilePage.EditFields;
    assert "skills" !in ProfilePage.EditFields;
  }

  /** The setup form overwrites the document, so the edit form then loads
      five empty fields. */
  lemma SetupErasesEditFields(s: ProfileSetup.State, store: Store, responseOk: bool)
    requires s.user.Some?
    ensures var written := ProfileSetup.Submit(s, store, true, responseOk).store;
      ProfilePage.Mount(s.user, written, true).state == ProfilePage.Empty
  {
    ProfileSetup.OverwriteDropsOtherFields(s, store, responseOk);
    var doc := ProfileSetup.Submit(s, store, true, responseOk).store.userData[s.user.value.uid];
    assert "name" !in doc && "age" !in doc && "jobRole" !in doc;
    assert "interestedCourses" !in doc && "likedCourses" !in doc;
  }
}
