/** The recommendation service (`app.py`): the profile strings that are
    scored, the top-n selection over a score vector, and the `/recommend`
    request handler with its validation and save. The TF-IDF similarity is
    an abstract function from (user profile, course profile) to a score. */
module Recommender {
  import opened Opt
  import opened Services
  import opened Text

  /** `user_data.get(key, '')`. */
  function Get(data: Fields<string>, key: string): (v: string)
    ensures key in data ==> v == data[key]
    ensures key !in data ==> v == ""
  {
    if key in data then data[key] else ""
  }

  /** `create_user_profile`: career goals, interests, skills, space-separated
      (in that order, which is not the form's order), a missing answer read
      as empty. Each answer sits at a known position, whatever it contains. */
  function UserProfile(data: Fields<string>): (r: string)
    ensures var g, i, k := Get(data, "careerGoals"), Get(data, "interests"), Get(data, "skills");
      && |r| == |g| + |i| + |k| + 2
      && r[..|g|] == g && r[|g|] == ' '
      && r[|g| + 1..|g| + 1 + |i|] == i && r[|g| + 1 + |i|] == ' '
      && r[|g| + |i| + 2..] == k
  {
    Join3(Get(data, "careerGoals"), Get(data, "interests"), Get(data, "skills"))
  }

  /** `create_course_profile`: title, what you will learn, keyword,
      space-separated, each at a known position. */
  function CourseProfile(c: Course): (r: string)
    ensures |r| == |c.title| + |c.learn| + |c.keyword| + 2
    ensures r[..|c.title|] == c.title && r[|c.title|] == ' '
    ensures r[|c.title| + 1..|c.title| + 1 + |c.learn|] == c.learn && r[|c.title| + 1 + |c.learn|] == ' '
    ensures r[|c.title| + |c.learn| + 2..] == c.keyword
  {
    Join3(c.title, c.learn, c.keyword)
  }

  /** The user profile is the three answers in the order goals, interests,
      skills, a missing answer reading as empty: splitting it on spaces gives
      them back when none holds a space. */
  lemma UserProfileParts(data: Fields<string>)
    requires ' ' !in Get(data, "careerGoals") && ' ' !in Get(data, "interests") && ' ' !in Get(data, "skills")
    ensures Split(UserProfile(data), ' ') == [Get(data, "careerGoals"), Get(data, "interests"), Get(data, "skills")]
    ensures |UserProfile(data)| == |Get(data, "careerGoals")| + |Get(data, "interests")| + |Get(data, "skills")| + 2
  {
    SplitJoin3(Get(data, "careerGoals"), Get(data, "interests"), Get(data, "skills"));
  }

  /** The course profile is title, what-you-will-learn and keyword: splitting
      it on spaces gives them back when none holds a space. */
  lemma CourseProfileParts(c: Course)
    requires ' ' !in c.title && ' ' !in c.learn && ' ' !in c.keyword
    ensures Split(CourseProfile(c), ' ') == [c.title, c.learn, c.keyword]
  {
    SplitJoin3(c.title, c.learn, c.keyword);
  }

  // ---------------------------------------------------------------------------
  // Top-n selection: `cosine_sim.argsort()[0, -top_n:][::-1]`

  const DefaultTopN := 5

  predicate Below(idx: seq<nat>, n: nat) {
    forall i :: 0 <= i < |idx| ==> idx[i] < n
  }

  predicate Distinct(idx: seq<nat>) {
    forall i, j :: 0 <= i < j < |idx| ==> idx[i] != idx[j]
  }

  predicate Ascending(scores: seq<int>, idx: seq<nat>)
    requires Below(idx, |scores|)
  {
    forall i, j :: 0 <= i < j < |idx| ==> scores[idx[i]] <= scores[idx[j]]
  }

  /** Insert index `x` into an index list sorted by ascending score. */
  function Insert(scores: seq<int>, x: nat, sorted: seq<nat>): (r: seq<nat>)
    requires x < |scores| && Below(sorted, |scores|) && Ascending(scores, sorted)
    ensures |r| == |sorted| + 1
    ensures r[0] == x || (|sorted| > 0 && r[0] == sorted[0])
    ensures forall y :: y in r <==> y == x || y in sorted
    ensures Below(r, |scores|) && Ascending(scores, r)
    decreases |sorted|
  {
    if |sorted| == 0 || scores[x] <= scores[sorted[0]] then [x] + sorted
    else
      var rest := Insert(scores, x, sorted[1..]);
      assert scores[sorted[0]] <= scores[rest[0]];
      [sorted[0]] + rest
  }

  /** Inserting a new index into a list without repeats gives a list without
      repeats. */
  lemma {:induction false} InsertDistinct(scores: seq<int>, x: nat, sorted: seq<nat>)
    requires x < |scores| && Below(sorted, |scores|) && Ascending(scores, sorted)
    requires Distinct(sorted) && x !in sorted
    ensures Distinct(Insert(scores, x, sorted))
    decreases |sorted|
  {
    if |sorted| > 0 && scores[x] > scores[sorted[0]] {
      InsertDistinct(scores, x, sorted[1..]);
      assert sorted[0] !in sorted[1..];
    }
  }

  /** The indices `0 .. k-1`, ordered by ascending score. */
  function ArgsortUpTo(scores: seq<int>, k: nat): (r: seq<nat>)
    requires k <= |scores|
    ensures |r| == k
    ensures forall y :: y in r <==> 0 <= y < k
    ensures Below(r, |scores|) && Ascending(scores, r) && Distinct(r)
  {
    if k == 0 then []
    else
      var prefix := ArgsortUpTo(scores, k - 1);
      InsertDistinct(scores, k - 1, prefix);
      Insert(scores, k - 1, prefix)
  }

  /** What `argsort` promises: every index of the score vector exactly
      once, by ascending score. The order among equal scores is left open. */
  predicate SortsAscending(scores: seq<int>, asc: seq<nat>) {
    && |asc| == |scores|
    && (forall y :: 0 <= y < |scores| ==> y in asc)
    && Below(asc, |scores|) && Ascending(scores, asc) && Distinct(asc)
  }

  /** One `argsort`, which puts the later index first among equal scores. */
  function Argsort(scores: seq<int>): (r: seq<nat>)
    ensures SortsAscending(scores, r)
  {
    ArgsortUpTo(scores, |scores|)
  }

  /** Where Python's `a[-n:]` starts in a sequence of length `len`. */
  function SliceStart(n: int, len: nat): (start: nat)
    ensures start <= len
    ensures n > 0 ==> len - start == (if n < len then n else len)
    ensures n == 0 ==> start == 0
    ensures n < 0 ==> start == (if -n < len then -n else len)
  {
    var start := -n;
    if start < 0 then (if start + len < 0 then 0 else start + len)
    else if start > len then len
    else start
  }

  /** `[::-1]`. */
  function Reverse<T>(s: seq<T>): (r: seq<T>)
    ensures |r| == |s|
    ensures forall i :: 0 <= i < |s| ==> r[i] == s[|s| - 1 - i]
  {
    if |s| == 0 then [] else Reverse(s[1..]) + [s[0]]
  }

  /** How many items `a[-n:]` keeps out of `len`. */
  function SliceCount(n: int, len: nat): nat {
    len - SliceStart(n, len)
  }

  /** The indices `recommend_courses` picks from an ascending argsort `asc`:
      its last `top_n` entries, reversed, so the picked list read back to
      front is the tail of `asc`. */
  function TopIndices(scores: seq<int>, asc: seq<nat>, topN: int): (r: seq<nat>)
    requires SortsAscending(scores, asc)
    ensures |r| == SliceCount(topN, |scores|)
    ensures forall i :: 0 <= i < |r| ==> r[i] == asc[|scores| - 1 - i]
  {
    Reverse(asc[SliceStart(topN, |asc|)..])
  }

  /** The picked indices: `min(top_n, n)` of them for a positive `top_n` (all
      `n` for `top_n = 0`, which Python reads as `a[0:]`), each a valid course
      index, none twice, by non-increasing score, and no index left out
      scores above any index picked; whatever order `asc` gives equal scores. */
  lemma TopIndicesSpec(scores: seq<int>, asc: seq<nat>, topN: int)
    requires SortsAscending(scores, asc)
    ensures var r := TopIndices(scores, asc, topN);
      && |r| == SliceCount(topN, |scores|)
      && (topN > 0 ==> |r| == if topN < |scores| then topN else |scores|)
      && (topN == 0 ==> |r| == |scores|)
      && Below(r, |scores|) && Distinct(r)
      && (forall i, j :: 0 <= i < j < |r| ==> scores[r[i]] >= scores[r[j]])
      && (forall j, k :: 0 <= j < |scores| && j !in r && 0 <= k < |r| ==> scores[j] <= scores[r[k]])
  {
    TopIndicesOrdered(scores, asc, topN);
    TopIndicesDominate(scores, asc, topN);
  }

  lemma TopIndicesOrdered(scores: seq<int>, asc: seq<nat>, topN: int)
    requires SortsAscending(scores, asc)
    ensures var r := TopIndices(scores, asc, topN);
      && Below(r, |scores|) && Distinct(r)
      && (forall i, j :: 0 <= i < j < |r| ==> scores[r[i]] >= scores[r[j]])
  {
    var n := |scores|;
    var r := TopIndices(scores, asc, topN);
    forall i, j | 0 <= i < j < |r|
      ensures r[i] != r[j] && scores[r[i]] >= scores[r[j]]
    {
      assert r[i] == asc[n - 1 - i] && r[j] == asc[n - 1 - j];
    }
  }

  lemma TopIndicesDominate(scores: seq<int>, asc: seq<nat>, topN: int)
    requires SortsAscending(scores, asc)
    ensures var r := TopIndices(scores, asc, topN);
      forall j, k :: 0 <= j < |scores| && j !in r && 0 <= k < |r| ==> scores[j] <= scores[r[k]]
  {
    var r := TopIndices(scores, asc, topN);
    forall j | 0 <= j < |scores| && j !in r
      ensures forall k :: 0 <= k < |r| ==> scores[j] <= scores[r[k]]
    {
      LeftOutScoresLower(scores, asc, topN, j);
    }
  }

  /** An index left out sits before the slice start in the argsort, so it
      scores no higher than anything in the slice. */
  lemma LeftOutScoresLower(scores: seq<int>, asc: seq<nat>, topN: int, j: nat)
    requires SortsAscending(scores, asc)
    requires j < |scores| && j !in TopIndices(scores, asc, topN)
    ensures var r := TopIndices(scores, asc, topN);
      forall k :: 0 <= k < |r| ==> scores[j] <= scores[r[k]]
  {
    var n := |scores|;
    var st := SliceStart(topN, n);
    var r := TopIndices(scores, asc, topN);
    assert j in asc;
    var q :| 0 <= q < n && asc[q] == j;
    forall p | st <= p < n
      ensures asc[p] in r
    {
      assert r[n - 1 - p] == asc[p];
    }
    assert q < st;
    forall k | 0 <= k < |r|
      ensures scores[j] <= scores[r[k]]
    {
      assert r[k] == asc[n - 1 - k];
    }
  }

  /** `[course_data[i] for i in top_indices]`, with `top_indices` taken from
      `Argsort`. */
  function RecommendCourses(scores: seq<int>, courseData: seq<Course>, topN: int): (r: seq<Course>)
    requires |scores| == |courseData|
    ensures var idx := TopIndices(scores, Argsort(scores), topN);
      && |r| == |idx|
      && forall i :: 0 <= i < |r| ==> r[i] == courseData[idx[i]]
  {
    var idx := TopIndices(scores, Argsort(scores), topN);
    TopIndicesSpec(scores, Argsort(scores), topN);
    seq(|idx|, i requires 0 <= i < |idx| => courseData[idx[i]])
  }

  /** The similarity of the user's profile to every catalogue course, in
      catalogue order (one row of `cosine_similarity`). */
  function Scores(profile: string, catalog: seq<Course>, similarity: (string, string) -> int): (r: seq<int>)
    ensures |r| == |catalog|
    ensures forall i :: 0 <= i < |catalog| ==> r[i] == similarity(profile, CourseProfile(catalog[i]))
  {
    seq(|catalog|, i requires 0 <= i < |catalog| => similarity(profile, CourseProfile(catalog[i])))
  }

  datatype Body = ErrorBody(error: string) | CourseList(courses: seq<Course>)

  datatype Response = Response(status: int, body: Body)

  const MissingIdMessage := "User ID is required"
  const UnknownUserMessage := "User not found"

  /** The courses recommended for a stored profile document: five catalogue
      courses, or the whole catalogue when it is smaller. */
  function Recommend(data: Fields<string>, catalog: seq<Course>, similarity: (string, string) -> int): (r: seq<Course>)
    ensures |r| == (if |catalog| < DefaultTopN then |catalog| else DefaultTopN)
    ensures forall c :: c in r ==> c in catalog
  {
    var scores := Scores(UserProfile(data), catalog, similarity);
    TopIndicesSpec(scores, Argsort(scores), DefaultTopN);
    RecommendCourses(Scores(UserProfile(data), catalog, similarity), catalog, DefaultTopN)
  }

  /** `GET /recommend?user_id=...`. A missing or empty `user_id` is a 400 and
      touches nothing; a missing or empty profile document is a 404 and saves
      nothing; otherwise `recommendations/user_id` is replaced by the list,
      which is also the response body. */
  function GetRecommendations(store: Store, userId: Option<string>, catalog: seq<Course>,
                              similarity: (string, string) -> int): (r: (Response, Store))
    ensures r.0.status in {200, 400, 404}
    ensures r.0.status == 400 <==> userId.None? || userId.value == ""
    ensures r.0.status == 400 ==> r.0.body == ErrorBody(MissingIdMessage)
    ensures r.0.status == 404 <==>
      userId.Some? && userId.value != "" && (userId.value !in store.userData || store.userData[userId.value] == map[])
    ensures r.0.status == 404 ==> r.0.body == ErrorBody(UnknownUserMessage)
    ensures r.0.status != 200 ==> r.1 == store
    ensures r.0.status == 200 ==>
      var id := userId.value;
      && r.0.body.CourseList?
      && r.0.body.courses == Recommend(store.userData[id], catalog, similarity)
      && |r.0.body.courses| == (if |catalog| < DefaultTopN then |catalog| else DefaultTopN)
      && r.1 == store.(recommendations := store.recommendations[id := r.0.body.courses])
  {
    if userId.None? || userId.value == "" then
      (Response(400, ErrorBody(MissingIdMessage)), store)
    else
      var id := userId.value;
      if id !in store.userData || store.userData[id] == map[] then
        (Response(404, ErrorBody(UnknownUserMessage)), store)
      else
        var data := store.userData[id];
        var courses := Recommend(data, catalog, similarity);
        (Response(200, CourseList(courses)), store.(recommendations := store.recommendations[id := courses]))
  }

  /** The courses saved and returned come from distinct catalogue positions,
      best score first, and no catalogue course left out scores above one
      that was picked. */
  lemma RecommendationsAreTopScored(data: Fields<string>, catalog: seq<Course>, similarity: (string, string) -> int)
    ensures var scores := Scores(UserProfile(data), catalog, similarity);
      var idx := TopIndices(scores, Argsort(scores), DefaultTopN);
      var r := Recommend(data, catalog, similarity);
      && |r| == |idx| && Below(idx, |catalog|) && Distinct(idx)
      && (forall i :: 0 <= i < |r| ==> r[i] == catalog[idx[i]])
      && (forall i, j :: 0 <= i < j < |r| ==> scores[idx[i]] >= scores[idx[j]])
      && (forall j, k :: 0 <= j < |catalog| && j !in idx && 0 <= k < |idx| ==> scores[j] <= scores[idx[k]])
  {
    var scores := Scores(UserProfile(data), catalog, similarity);
    TopIndicesSpec(scores, Argsort(scores), DefaultTopN);
  }
}
