/** The course detail view (`CourseDetails.js`): resolve one course by title
    out of the recommendations document named by the route's `userId`. */
module CourseDetails {
  import opened Opt
  import opened Services

  /** `courseDetails` (null until a lookup stores a course) and the signed-in
      user read once at mount. */
  datatype State = State(details: Option<Course>, user: Session)

  /** Not-found and not-yet-loaded are the same `Loading...` screen. */
  datatype View = Loading | Showing(course: Course)

  /** Mount: `auth.currentUser` is stored if present; nobody is redirected. */
  function Mount(session: Session): (s: State)
    ensures s.details.None? && s.user == session
  {
    State(None, session)
  }

  /** Position of the first course, in list order, with the given title. */
  function FindIndex(courses: seq<Course>, title: string): (r: Option<nat>)
    ensures r.Some? ==> r.value < |courses| && courses[r.value].title == title
    ensures r.Some? ==> forall j :: 0 <= j < r.value ==> courses[j].title != title
    ensures r.None? ==> forall j :: 0 <= j < |courses| ==> courses[j].title != title
    decreases |courses|
  {
    if |courses| == 0 then None
    else if courses[0].title == title then Some(0)
    else
      match FindIndex(courses[1..], title)
      case None => None
      case Some(i) => Some(i + 1)
  }

  /** `courses.find(c => c['Course Title'] === title)`. */
  function Find(courses: seq<Course>, title: string): (r: Option<Course>)
    ensures r.None? <==> forall j :: 0 <= j < |courses| ==> courses[j].title != title
    ensures r.Some? ==>
      exists i :: 0 <= i < |courses| && courses[i] == r.value && r.value.title == title
                  && forall j :: 0 <= j < i ==> courses[j].title != title
  {
    match FindIndex(courses, title)
    case None => None
    case Some(i) => Some(courses[i])
  }

  /** `fetchCourseDetails` once `getDoc` settles. `decoded` is the result of
      `decodeURIComponent` on the title segment, `None` when it throws on a
      malformed escape. `find` calls the decoder only on a non-empty list, and
      a throw inside the `try` leaves the state alone, as does an absent
      document or a failed read. */
  function ApplyLookup(s: State, snap: Snapshot<seq<Course>>, decoded: Option<string>): (r: State)
    ensures r.user == s.user
    ensures !snap.Exists? ==> r == s
    ensures snap.Exists? && |snap.data| == 0 ==> r.details.None?
    ensures snap.Exists? && |snap.data| > 0 && decoded.None? ==> r == s
    ensures snap.Exists? && decoded.Some? ==> r.details == Find(snap.data, decoded.value)
  {
    match snap
    case Exists(courses) =>
      if |courses| == 0 then s.(details := None)
      else if decoded.None? then s
      else s.(details := Find(courses, decoded.value))
    case _ => s
  }

  /** The read behind the view: `recommendations/<route userId>`. */
  function Load(s: State, store: Store, routeUserId: Uid, readOk: bool, decoded: Option<string>): (r: Step<State>)
    ensures r.store == store
    ensures r.effects == [Read(Recommendations, routeUserId)]
    ensures r.state.user == s.user
  {
    Step(ApplyLookup(s, GetDoc(store.recommendations, routeUserId, readOk), decoded), store,
         [Read(Recommendations, routeUserId)])
  }

  function Render(s: State): (v: View)
    ensures v.Loading? <==> s.details.None?
    ensures v.Showing? ==> v.course == s.details.value
  {
    if s.details.None? then Loading else Showing(s.details.value)
  }

  /** A shown course is one in the route user's stored list, with exactly the
      requested title, and no earlier course in that list has that title. */
  lemma ShownIsFirstMatch(session: Session, store: Store, routeUserId: Uid, title: string)
    requires Render(Load(Mount(session), store, routeUserId, true, Some(title)).state).Showing?
    ensures routeUserId in store.recommendations
    ensures var courses := store.recommendations[routeUserId];
      var c := Render(Load(Mount(session), store, routeUserId, true, Some(title)).state).course;
      exists i :: 0 <= i < |courses| && courses[i] == c && c.title == title
                  && forall j :: 0 <= j < i ==> courses[j].title != title
  {
  }

  /** A title missing from the list renders exactly like a page whose
      document has not arrived: there is no not-found state. */
  lemma MissingTitleLooksLikeLoading(session: Session, store: Store, routeUserId: Uid, title: string, readOk: bool)
    requires routeUserId in store.recommendations ==>
      forall j :: 0 <= j < |store.recommendations[routeUserId]| ==> store.recommendations[routeUserId][j].title != title
    ensures Render(Load(Mount(session), store, routeUserId, readOk, Some(title)).state) == Render(Mount(session))
    ensures Render(Mount(session)) == Loading
  {
  }

  /** The document read is the one named by the route, whoever is signed in:
      two stores that agree on that one document give the same details. */
  lemma KeyedByRoute(s1: State, s2: State, a: Store, b: Store, routeUserId: Uid, readOk: bool, decoded: Option<string>)
    requires s1.details == s2.details
    requires routeUserId in a.recommendations <==> routeUserId in b.recommendations
    requires routeUserId in a.recommendations ==> a.recommendations[routeUserId] == b.recommendations[routeUserId]
    ensures Load(s1, a, routeUserId, readOk, decoded).state.details == Load(s2, b, routeUserId, readOk, decoded).state.details
  {
  }
}
