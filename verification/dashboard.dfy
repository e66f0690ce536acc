/** The Dashboard view (`Dashboard.js`): sign-in observer, recommendations
    fetch, carousel navigation, the render-state choice and feedback submit. */
module Dashboard {
  import opened Opt
  import opened Services
  import opened Text
  import Carousel

  /** The `user` state the observer stores. */
  datatype Viewer = Viewer(name: string, email: string, uid: Uid)

  datatype State = State(courses: seq<Course>, user: Option<Viewer>, index: nat, feedback: string)

  /** The state at mount: no courses, no user, index 0, empty feedback box. */
  const Initial := State([], None, 0, "")

  /** What the component renders. `Broken` is `courses[currentIndex]` being
      `undefined`, whose title the render then fails to read. */
  datatype View = Loading | NoCourses | Showing(course: Course, position: nat) | Broken

  const PleaseEnterMessage := "Please enter your feedback."
  const SubmittedMessage := "Feedback submitted successfully!"
  const SubmitFailedMessage := "There was an error submitting your feedback. Please try again later."

  /** The render-state choice: no user first, then an empty list, then the
      course at the current index. */
  function Render(s: State): (v: View)
    ensures v.Loading? <==> s.user.None?
    ensures v.NoCourses? <==> s.user.Some? && |s.courses| == 0
    ensures v.Showing? <==> s.user.Some? && s.index < |s.courses|
    ensures v.Showing? ==> v.position == s.index && v.course == s.courses[s.index]
  {
    if s.user.None? then Loading
    else if |s.courses| == 0 then NoCourses
    else if s.index < |s.courses| then Showing(s.courses[s.index], s.index)
    else Broken
  }

  /** `displayName || 'User'`. */
  function ViewerOf(id: Identity): (v: Viewer)
    ensures v.uid == id.uid && v.email == id.email
    ensures v.name != ""
    ensures id.displayName.Some? && id.displayName.value != "" ==> v.name == id.displayName.value
    ensures id.displayName.None? || id.displayName.value == "" ==> v.name == "User"
  {
    var name := if id.displayName.Some? && id.displayName.value != "" then id.displayName.value else "User";
    Viewer(name, id.email, id.uid)
  }

  /** `fetchCourses` once `getDoc` settles: only an existing document changes
      the list; an absent document or a failed read leaves the state alone. */
  function ApplyCourses(s: State, snap: Snapshot<seq<Course>>): (r: State)
    ensures r.user == s.user && r.index == s.index && r.feedback == s.feedback
    ensures snap.Exists? ==> r.courses == snap.data
    ensures !snap.Exists? ==> r == s
  {
    if snap.Exists? then s.(courses := snap.data) else s
  }

  /** The `onAuthStateChanged` callback: with no user it only logs (no
      redirect); with a user it stores the user and reads
      `recommendations/uid`. */
  function OnAuthChanged(s: State, session: Session, store: Store, readOk: bool): (r: Step<State>)
    ensures r.store == store
    ensures session.None? ==> r.state == s && r.effects == []
    ensures session.Some? ==>
      && r.effects == [Read(Recommendations, session.value.uid)]
      && r.state.user == Some(ViewerOf(session.value))
      && r.state.index == s.index && r.state.feedback == s.feedback
      && r.state.courses ==
           if readOk && session.value.uid in store.recommendations
           then store.recommendations[session.value.uid] else s.courses
  {
    match session
    case None => Step(s, store, [])
    case Some(id) =>
      var signedIn := s.(user := Some(ViewerOf(id)));
      Step(ApplyCourses(signedIn, GetDoc(store.recommendations, id.uid, readOk)), store,
           [Read(Recommendations, id.uid)])
  }

  /** The Next button, which exists only while a course is shown: the
      following course is shown, the first one after the last. */
  function PressNext(s: State): (r: State)
    requires Render(s).Showing?
    ensures r.courses == s.courses && r.user == s.user && r.feedback == s.feedback
    ensures var next := if s.index == |s.courses| - 1 then 0 else s.index + 1;
      Render(r) == Showing(s.courses[next], next)
  {
    s.(index := Carousel.Next(s.index, |s.courses|))
  }

  /** The Previous button, which exists only while a course is shown: the
      preceding course is shown, the last one before the first. */
  function PressPrev(s: State): (r: State)
    requires Render(s).Showing?
    ensures r.courses == s.courses && r.user == s.user && r.feedback == s.feedback
    ensures var prev := if s.index == 0 then |s.courses| - 1 else s.index - 1;
      Render(r) == Showing(s.courses[prev], prev)
  {
    s.(index := Carousel.Prev(s.index, |s.courses|))
  }

  /** Previous undoes Next and Next undoes Previous on the screen. */
  lemma PressPrevUndoesNext(s: State)
    requires Render(s).Showing?
    ensures PressPrev(PressNext(s)) == s
    ensures PressNext(PressPrev(s)) == s
  {
  }

  /** Typing into the feedback box. */
  function EditFeedback(s: State, text: string): (r: State)
    ensures r.feedback == text && r.courses == s.courses && r.user == s.user && r.index == s.index
  {
    s.(feedback := text)
  }

  /** The document a feedback submit merges into `feedback/uid`: exactly the
      text, as typed, and the submission time. */
  function FeedbackFields(text: string, stamp: int): (d: Fields<FeedbackValue>)
    ensures d.Keys == {"text", "timestamp"}
    ensures d["text"] == Text(text) && d["timestamp"] == Stamp(stamp)
  {
    map["text" := Text(text), "timestamp" := Stamp(stamp)]
  }

  /** `submitFeedback`, available only on the screen that shows the feedback
      box. Whitespace-only text is refused before any request; otherwise the
      text and timestamp are merged into `feedback/uid`, and only a successful
      write clears the box. */
  function SubmitFeedback(s: State, store: Store, writeOk: bool, stamp: int): (r: Step<State>)
    requires Render(s).Showing?
    ensures r.store.userData == store.userData && r.store.recommendations == store.recommendations
    ensures r.state.courses == s.courses && r.state.user == s.user && r.state.index == s.index
    ensures Blank(s.feedback) ==> r.state == s && r.store == store && r.effects == [Alert(PleaseEnterMessage)]
    ensures !Blank(s.feedback) && writeOk ==>
      var uid := s.user.value.uid;
      && r.state.feedback == ""
      && r.effects == [Write(Feedback, uid, true), Alert(SubmittedMessage)]
      && r.store.feedback == SetDoc(store.feedback, uid, FeedbackFields(s.feedback, stamp), true)
    ensures !Blank(s.feedback) && !writeOk ==>
      && r.state == s && r.store == store
      && r.effects == [Write(Feedback, s.user.value.uid, true), Alert(SubmitFailedMessage)]
  {
    TrimEmptyIffBlank(s.feedback);
    if Trim(s.feedback) == [] then
      Step(s, store, [Alert(PleaseEnterMessage)])
    else
      var uid := s.user.value.uid;
      var write := Write(Feedback, uid, true);
      if writeOk then
        var docs := SetDoc(store.feedback, uid, FeedbackFields(s.feedback, stamp), true);
        Step(s.(feedback := ""), store.(feedback := docs), [write, Alert(SubmittedMessage)])
      else
        Step(s, store, [write, Alert(SubmitFailedMessage)])
  }

  /** A successful submit stores the text and time under `feedback/uid`,
      keeps every other field of that document and every other document. */
  lemma FeedbackMergeKeepsOthers(s: State, store: Store, stamp: int)
    requires Render(s).Showing? && !Blank(s.feedback)
    ensures var uid := s.user.value.uid;
      var docs := SubmitFeedback(s, store, true, stamp).store.feedback;
      && docs.Keys == store.feedback.Keys + {uid}
      && docs[uid]["text"] == Text(s.feedback)
      && docs[uid]["timestamp"] == Stamp(stamp)
      && (forall f :: uid in store.feedback && f in store.feedback[uid] && f != "text" && f != "timestamp"
            ==> f in docs[uid] && docs[uid][f] == store.feedback[uid][f])
      && (forall k :: k in store.feedback && k != uid ==> docs[k] == store.feedback[k])
  {
    var uid := s.user.value.uid;
    var fields := FeedbackFields(s.feedback, stamp);
    assert fields.Keys == {"text", "timestamp"};
    var docs := SetDoc(store.feedback, uid, fields, true);
    assert docs[uid]["text"] == Text(s.feedback);
  }

  /** Well-formed: the index points into the list, or it is still 0. */
  predicate Wf(s: State) {
    s.index < |s.courses| || s.index == 0
  }

  lemma WfNeverBroken(s: State)
    requires Wf(s)
    ensures Render(s) != Broken
  {
  }

  /** Mounting, signing in and the first fetch never lead to a broken render,
      and with a non-empty stored list the first course is shown. */
  lemma FirstLoad(session: Session, store: Store, readOk: bool)
    ensures var r := OnAuthChanged(Initial, session, store, readOk).state;
      && Wf(r)
      && (session.Some? && readOk && session.value.uid in store.recommendations
          && |store.recommendations[session.value.uid]| > 0
          ==> Render(r) == Showing(store.recommendations[session.value.uid][0], 0))
  {
  }

  /** Navigation and feedback keep a well-formed state well-formed. */
  lemma NavigationKeepsWf(s: State, store: Store, writeOk: bool, stamp: int, text: string)
    requires Wf(s) && Render(s).Showing?
    ensures Wf(PressNext(s)) && Wf(PressPrev(s)) && Wf(EditFeedback(s, text))
    ensures Wf(SubmitFeedback(s, store, writeOk, stamp).state)
  {
  }

  /** The observer keeps the index when it replaces the list, so a later
      sign-in event whose stored list is non-empty but no longer than the
      current index leaves the index past the end and breaks the render. */
  lemma RefetchShorterListBreaks(s: State, id: Identity, store: Store)
    requires id.uid in store.recommendations && 0 < |store.recommendations[id.uid]| <= s.index
    ensures Render(OnAuthChanged(s, Some(id), store, true).state) == Broken
  {
  }

  /** A sign-in event whose stored list is no shorter than the current one
      keeps a well-formed state well-formed, as every list the recommendation
      service saves from one catalogue has the same length. */
  lemma NoShorterRefetchKeepsWf(s: State, session: Session, store: Store, readOk: bool)
    requires Wf(s)
    requires session.Some? && readOk && session.value.uid in store.recommendations ==>
      |store.recommendations[session.value.uid]| >= |s.courses|
    ensures Wf(OnAuthChanged(s, session, store, readOk).state)
  {
  }

  /** The observer as evidently intended: like `OnAuthChanged`, but the
      carousel goes back to the first course whenever the list is replaced. */
  function OnAuthChangedReset(s: State, session: Session, store: Store, readOk: bool): (r: Step<State>)
    ensures r.store == store
    ensures session.None? ==> r.state == s && r.effects == []
    ensures session.Some? ==>
      var replaced := readOk && session.value.uid in store.recommendations;
      && r.effects == [Read(Recommendations, session.value.uid)]
      && r.state.user == Some(ViewerOf(session.value)) && r.state.feedback == s.feedback
      && (replaced ==> r.state.courses == store.recommendations[session.value.uid] && r.state.index == 0)
      && (!replaced ==> r.state.courses == s.courses && r.state.index == s.index)
  {
    match session
    case None => Step(s, store, [])
    case Some(id) =>
      var signedIn := s.(user := Some(ViewerOf(id)));
      match GetDoc(store.recommendations, id.uid, readOk)
      case Exists(courses) => Step(signedIn.(courses := courses, index := 0), store, [Read(Recommendations, id.uid)])
      case _ => Step(signedIn, store, [Read(Recommendations, id.uid)])
  }

  /** The corrected observer keeps every well-formed state well-formed,
      whatever list the store holds, so it never leads to a broken render. */
  lemma ResetKeepsWf(s: State, session: Session, store: Store, readOk: bool)
    requires Wf(s)
    ensures Wf(OnAuthChangedReset(s, session, store, readOk).state)
    ensures Render(OnAuthChangedReset(s, session, store, readOk).state) != Broken
  {
    WfNeverBroken(OnAuthChangedReset(s, session, store, readOk).state);
  }

  /** On the first sign-in event the corrected observer and the one as
      written agree, so the first load is the same under both. */
  lemma ResetAgreesOnFirstLoad(session: Session, store: Store, readOk: bool)
    ensures OnAuthChangedReset(Initial, session, store, readOk) == OnAuthChanged(Initial, session, store, readOk)
  {
  }

  /** An accepted submit clears the box and merges the text and time into
      `feedback/uid`. */
  lemma SubmitAccepted(s: State, store: Store, stamp: int)
    requires Render(s).Showing? && !Blank(s.feedback)
    ensures var r := SubmitFeedback(s, store, true, stamp);
      && r.state == s.(feedback := "")
      && r.store.feedback == SetDoc(store.feedback, s.user.value.uid, FeedbackFields(s.feedback, stamp), true)
  {
  }

  /** Two successful submits leave one feedback document for the user,
      holding the second text. */
  lemma LastFeedbackWins(s: State, store: Store, x: string, y: string, t1: int, t2: int)
    requires Render(s).Showing?
    requires !Blank(x) && !Blank(y)
    ensures var first := SubmitFeedback(EditFeedback(s, x), store, true, t1);
      var second := SubmitFeedback(EditFeedback(first.state, y), first.store, true, t2);
      var uid := s.user.value.uid;
      && second.store.feedback[uid]["text"] == Text(y)
      && second.store.feedback == SetDoc(store.feedback, uid, FeedbackFields(y, t2), true)
  {
    var uid := s.user.value.uid;
    var a, b := FeedbackFields(x, t1), FeedbackFields(y, t2);
    var s1 := EditFeedback(s, x);
    SubmitAccepted(s1, store, t1);
    var first := SubmitFeedback(s1, store, true, t1);
    var s2 := EditFeedback(first.state, y);
    SubmitAccepted(s2, first.store, t2);
    assert a.Keys == b.Keys;
    MergeTwiceLastWins(store.feedback, uid, a, b);
  }
}
