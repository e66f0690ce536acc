/** The conventional Some/None datatype, used for values the source reads as
    `null`/`undefined` (a signed-out identity, a lookup that found nothing). */
module Opt {

  datatype Option<+T> = None | Some(value: T)
}

/** The remote services the views talk to, reduced to values: the document
    store (collections `userData`, `recommendations`, `feedback`, each keyed by
    the user's uid), the signed-in identity, and the requests a handler issues. */
module Services {
  import opened Opt

  type Uid = string

  /** One document: field name to field value. */
  type Fields<V> = map<string, V>

  /** One collection: document id to document. */
  type Collection<V> = map<Uid, Fields<V>>

  /** A course record as stored in a recommendations document (one CSV row of
      the course catalogue). */
  datatype Course = Course(
    title: string,
    keyword: string,
    learn: string,
    instructor: string,
    level: string,
    duration: string,
    offeredBy: string,
    rating: string,
    reviews: string,
    schedule: string,
    modules: string,
    url: string)

  /** A field of a feedback document: the text, or the submission time (an
      opaque clock reading). */
  datatype FeedbackValue = Text(text: string) | Stamp(ticks: int)

  /** The three collections. Profile documents hold only strings (both editors
      write string form fields); a recommendations document is `{courses: list}`
      and is represented by the list itself. */
  datatype Store = Store(
    userData: Collection<string>,
    recommendations: map<Uid, seq<Course>>,
    feedback: Collection<FeedbackValue>)

  datatype Coll = UserData | Recommendations | Feedback

  /** What a handler asks of the outside world, in the order it asks. */
  datatype Effect =
    | Read(coll: Coll, key: Uid)
    | Write(coll: Coll, key: Uid, merge: bool)
    | Recommend(userId: Uid)
    | Navigate(path: string, replace: bool)
    | Alert(message: string)

  /** The result of one event handler: the view state after it, the store
      after it, and the requests it issued. */
  datatype Step<S> = Step(state: S, store: Store, effects: seq<Effect>)

  /** The identity provider's current user. */
  datatype Identity = Identity(uid: Uid, email: string, displayName: Option<string>)

  type Session = Option<Identity>

  const SignInPath := "/signin"
  const DashboardPath := "/dashboard"

  /** `handleLogout`: `signOut`, then go to the sign-in page (a plain push,
      not a replace); a failed sign-out is only logged and leaves the user
      signed in where they are. */
  function Logout(session: Session, signOutOk: bool): (r: (Session, seq<Effect>))
    ensures signOutOk ==> r.0.None? && r.1 == [Navigate(SignInPath, false)]
    ensures !signOutOk ==> r.0 == session && r.1 == []
  {
    if signOutOk then (None, [Navigate(SignInPath, false)]) else (session, [])
  }

  /** The outcome of `getDoc`: the document, no such document, or a rejected read. */
  datatype Snapshot<T> = Exists(data: T) | Absent | ReadFailed

  function GetDoc<T>(docs: map<Uid, T>, key: Uid, ok: bool): (r: Snapshot<T>)
    ensures r.ReadFailed? <==> !ok
    ensures r.Exists? <==> ok && key in docs
    ensures r.Exists? ==> r.data == docs[key]
  {
    if !ok then ReadFailed else if key in docs then Exists(docs[key]) else Absent
  }

  /** `setDoc(doc(collection, key), fields, {merge})`: with `merge` the given
      fields are laid over the existing document, without it the document is
      replaced by exactly the given fields. Other documents are untouched. */
  function SetDoc<V>(docs: Collection<V>, key: Uid, fields: Fields<V>, merge: bool): (r: Collection<V>)
    ensures r.Keys == docs.Keys + {key}
    ensures forall k :: k in docs && k != key ==> r[k] == docs[k]
    ensures forall f :: f in fields ==> f in r[key] && r[key][f] == fields[f]
    ensures !merge ==> r[key].Keys == fields.Keys
    ensures merge && key in docs ==> r[key].Keys == docs[key].Keys + fields.Keys
    ensures merge && key in docs ==>
      forall f :: f in docs[key] && f !in fields ==> r[key][f] == docs[key][f]
    ensures merge && key !in docs ==> r[key] == fields
  {
    docs[key := if merge && key in docs then docs[key] + fields else fields]
  }

  /** Merging the same field names twice keeps only the second values: at most
      one record per key survives repeated merge-writes. */
  lemma MergeTwiceLastWins<V>(docs: Collection<V>, key: Uid, a: Fields<V>, b: Fields<V>)
    requires a.Keys == b.Keys
    ensures SetDoc(SetDoc(docs, key, a, true), key, b, true) == SetDoc(docs, key, b, true)
  {
    var once := SetDoc(docs, key, a, true);
    var twice := SetDoc(once, key, b, true);
    var direct := SetDoc(docs, key, b, true);
    assert twice[key] == direct[key];
    assert twice.Keys == direct.Keys;
  }
}
