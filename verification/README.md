# Course-Recommender: a Dafny model of its view logic and recommender

Course-Recommender is a single-page web app backed by a hosted document
store and a small Flask recommendation service. A user fills in a profile
(career goals, skills, interests, or name/age/job role/courses). The setup
form asks the service for recommendations. The Dashboard then pages through
the recommended courses in a carousel, and a detail page resolves one course
by its title.

This project models the rules in that code that can be stated exactly:

- **Dashboard** (`Dashboard.js`): the sign-in observer and course fetch, the
  Loading / no-courses / showing choice, circular Next/Previous index
  arithmetic, and the feedback guard with its keyed merge-write.
- **Course detail** (`CourseDetails.js`): first-match lookup by title in the
  recommendations document named by the route's `userId`, and the render gate
  that makes "not found" look the same as "loading".
- **Profile editors** (`ProfilePage.js`, `ProfileSetup.js`): the two forms
  over one `userData/uid` document. The edit form loads with `''` defaults and
  merge-writes five fields. The setup form overwrites the document with three
  fields, then calls the recommender, then navigates only when both succeed.
- **Recommender** (`app.py`): the profile strings, the top-n selection
  `argsort()[0, -top_n:][::-1]` over a score vector, and the `/recommend`
  handler (400 / 404 / save and return).

Remote services become values:

- The store is three maps from uid to document (`Services.Store`).
- The signed-in user is an optional `Identity`.
- Each remote call's success is a boolean input.
- Every event handler returns a `Step`: the new view state, the store after
  the handler's own writes, and the requests it issued in order (`Read`, `Write`, `Recommend`,
  `Navigate`, `Alert`). Ordering and "no write happened" are therefore
  statements about that list.

JavaScript's truncating `%` is written out (`Carousel.JsRem`), and Python's
`a[-n:]` slice start is modelled exactly (`Recommender.SliceStart`). With
`top_n = 0` the slice keeps every course. The service only ever uses the
default of 5.

Three behaviours of the code differ from what a reader of the screens
would expect; the model follows the code:

- The Dashboard does not redirect a signed-out viewer to `/signin`. Its
  observer only logs, and the view stays on Loading
  (`Dashboard.OnAuthChanged`). Of the modelled views, only the two profile
  forms redirect; `RecommendedCourses.js` (not modelled) does too.
- A course title missing from the list is not an explicit not-found state.
  It renders `Loading...` forever, like an unloaded page
  (`CourseDetails.MissingTitleLooksLikeLoading`).
- Profile saves are not all merges. The setup form overwrites the whole
  document and drops the edit form's fields
  (`Flows.SetupErasesEditFields`).

The Dashboard observer replaces the course list without resetting the
carousel index. If a later sign-in event delivers a non-empty list no longer
than the current index, the index falls outside it and the render reads a
course that does not exist (`Dashboard.RefetchShorterListBreaks`). This needs
a list saved under a different catalogue, or by another writer: every list
the service saves from one catalogue has the same length
(`Flows.SameCatalogSameLength`), and a list no shorter than the current one
keeps the index in range (`Dashboard.NoShorterRefetchKeepsWf`). The first
load and every button press keep the index in range (`Dashboard.FirstLoad`,
`Dashboard.NavigationKeepsWf`). The corrected observer,
`Dashboard.OnAuthChangedReset`, returns to the first course whenever it
replaces the list. It agrees with the one as written on the first load, and
it is the one the end-to-end flow uses (see "## Findings").

## Model

| member | source | states |
|---|---|---|
| Services.GetDoc | Course-Recommender/src/pages/Dashboard.js:34-36 | a read fails, finds nothing, or yields exactly the stored document under that key |
| Services.SetDoc | Course-Recommender/src/pages/ProfilePage.js:58-64 | a merge-write sets the given fields and keeps every other field of the document; an overwrite leaves exactly the given fields; other documents are untouched |
| Services.MergeTwiceLastWins | Course-Recommender/src/pages/Dashboard.js:72-73 | two merge-writes of the same field names under one key equal a single write of the second values, so one record per user survives |
| Services.Logout | Course-Recommender/src/pages/Dashboard.js:46-55 | a successful sign-out clears the session and pushes `/signin`; a failed one changes nothing and navigates nowhere |
| Text.SkipWhite | Course-Recommender/src/pages/Dashboard.js:66 | the trimmed stretch starts at the first character that is not whitespace, everything before it being whitespace (the end of the string if there is none) |
| Text.SkipWhiteBack | Course-Recommender/src/pages/Dashboard.js:66 | the trimmed stretch ends after the last character that is not whitespace, everything after it being whitespace (its start if there is none) |
| Text.Trim | Course-Recommender/src/pages/Dashboard.js:66 | `trim()`: a contiguous stretch of the input with only whitespace cut off on either side, itself starting and ending with a non-whitespace character |
| Text.TrimEmptyIffBlank | Course-Recommender/src/pages/Dashboard.js:66 | `trim()` yields the empty string exactly when every character is whitespace |
| Carousel.JsRem | Course-Recommender/src/pages/Dashboard.js:58 | JavaScript `%`: for a non-negative dividend the remainder is in [0, n), and it is the dividend itself below n and the dividend minus n in [n, 2n) |
| Carousel.Next | Course-Recommender/src/pages/Dashboard.js:57-59 | for 0 <= i < n the next index stays in [0, n): i + 1, wrapping from the last to 0 |
| Carousel.Prev | Course-Recommender/src/pages/Dashboard.js:61-63 | for 0 <= i < n the previous index stays in [0, n): i - 1, wrapping from 0 to the last |
| Carousel.PrevNext | Course-Recommender/src/pages/Dashboard.js:57-63 | Prev undoes Next |
| Carousel.NextPrev | Course-Recommender/src/pages/Dashboard.js:57-63 | Next undoes Prev |
| Carousel.Advance | Course-Recommender/src/pages/Dashboard.js:57-59 | any number of Next presses keeps the index in [0, n) |
| Carousel.FullCircle | Course-Recommender/src/pages/Dashboard.js:57-59 | pressing Next n times on a list of n courses returns to the starting index |
| Dashboard.Render | Course-Recommender/src/pages/Dashboard.js:82-98 | Loading exactly when there is no user, whatever the list holds; "no courses" exactly for a user with an empty list; a course is shown exactly when the index is inside a non-empty list, and it is the course at that index |
| Dashboard.ViewerOf | Course-Recommender/src/pages/Dashboard.js:17-21 | the stored user keeps uid and email, and its name is the display name or `User` when that is missing or empty |
| Dashboard.ApplyCourses | Course-Recommender/src/pages/Dashboard.js:32-44 | an existing recommendations document replaces the list; an absent document or a failed read leaves the whole state unchanged |
| Dashboard.OnAuthChanged | Course-Recommender/src/pages/Dashboard.js:14-30 | no user: no state change and no request, so no redirect; a user: the user is stored and one read of `recommendations/uid` sets the list if the document exists, else the list is kept |
| Dashboard.PressNext | Course-Recommender/src/pages/Dashboard.js:57-59 | on the carousel screen Next shows the following course, the first after the last, and changes nothing else |
| Dashboard.PressPrev | Course-Recommender/src/pages/Dashboard.js:61-63 | on the carousel screen Previous shows the preceding course, the last before the first, and changes nothing else |
| Dashboard.PressPrevUndoesNext | Course-Recommender/src/pages/Dashboard.js:57-63 | Previous after Next, and Next after Previous, restore the state |
| Dashboard.EditFeedback | Course-Recommender/src/pages/Dashboard.js:205-211 | typing replaces only the feedback text |
| Dashboard.FeedbackFields | Course-Recommender/src/pages/Dashboard.js:73 | the feedback document holds exactly `text`, the text as typed (untrimmed), and `timestamp`, the submission time |
| Dashboard.SubmitFeedback | Course-Recommender/src/pages/Dashboard.js:65-80 | whitespace-only feedback issues only the "Please enter" alert and changes nothing; otherwise one merge-write to `feedback/uid` is issued; on success the text and timestamp are merged and the box is cleared; on failure nothing changes but the error alert; the profile and recommendations collections are never touched |
| Dashboard.FeedbackMergeKeepsOthers | Course-Recommender/src/pages/Dashboard.js:72-73 | after a successful submit `feedback/uid` holds the text and timestamp, keeps its other fields, and every other feedback document is unchanged |
| Dashboard.SubmitAccepted | Course-Recommender/src/pages/Dashboard.js:71-75 | accepted feedback that is written clears the box and merges `{text, timestamp}` into `feedback/uid` |
| Dashboard.LastFeedbackWins | Course-Recommender/src/pages/Dashboard.js:71-75 | two successful submits leave one feedback document for the user, holding the second text |
| Dashboard.WfNeverBroken | Course-Recommender/src/pages/Dashboard.js:98 | with the index inside the list, or the index still 0, the render never reads past the list |
| Dashboard.FirstLoad | Course-Recommender/src/pages/Dashboard.js:14-44 | mounting then the first observer call gives a well-formed state, and a non-empty stored list shows its first course |
| Dashboard.NavigationKeepsWf | Course-Recommender/src/pages/Dashboard.js:57-80 | Next, Previous, typing and submitting keep the index inside the list |
| Dashboard.RefetchShorterListBreaks | Course-Recommender/src/pages/Dashboard.js:15-37 | for every state and store: a sign-in event whose stored list is non-empty but no longer than the current index (`0 < length <= currentIndex`) renders a course that does not exist |
| Dashboard.NoShorterRefetchKeepsWf | Course-Recommender/src/pages/Dashboard.js:15-37 | a sign-in event whose stored list is no shorter than the current list keeps a well-formed state well-formed |
| Dashboard.OnAuthChangedReset | Course-Recommender/src/pages/Dashboard.js:14-37 | the observer as evidently intended: the same user, request and list as the one as written, with the carousel back at index 0 whenever the list is replaced |
| Dashboard.ResetKeepsWf | Course-Recommender/src/pages/Dashboard.js:37 | the corrected observer keeps every well-formed state well-formed, whatever the stored list, so the render at line 98 never reads past the list |
| Dashboard.ResetAgreesOnFirstLoad | Course-Recommender/src/pages/Dashboard.js:14-37 | on the first sign-in event the corrected observer and the one as written give the same step |
| CourseDetails.Mount | Course-Recommender/src/pages/CourseDetails.js:15-24 | the page starts with no details and stores the current user if any, with no redirect |
| CourseDetails.FindIndex | Course-Recommender/src/pages/CourseDetails.js:33 | the position found holds the title and no earlier course does; nothing found means no course has the title |
| CourseDetails.Find | Course-Recommender/src/pages/CourseDetails.js:33 | the result is the first course in list order whose title equals the requested one, and none exactly when no course matches |
| CourseDetails.ApplyLookup | Course-Recommender/src/pages/CourseDetails.js:27-41 | an absent document or failed read changes nothing; an empty list sets no details; a title that cannot be decoded changes nothing on a non-empty list; otherwise the details are the first match, or none |
| CourseDetails.Load | Course-Recommender/src/pages/CourseDetails.js:27-30 | the one read issued is `recommendations/<route userId>`, and neither the store nor the stored user changes |
| CourseDetails.Render | Course-Recommender/src/pages/CourseDetails.js:57-65 | Loading exactly when there are no details; otherwise exactly the stored course is shown |
| CourseDetails.ShownIsFirstMatch | Course-Recommender/src/pages/CourseDetails.js:31-34 | a shown course is in the route user's stored list, carries the requested title, and is the first with that title |
| CourseDetails.MissingTitleLooksLikeLoading | Course-Recommender/src/pages/CourseDetails.js:33-63 | when no stored course has the title, the page renders the same `Loading...` as before any data arrived, whatever the read did |
| CourseDetails.KeyedByRoute | Course-Recommender/src/pages/CourseDetails.js:8-30 | the details depend only on the document named by the route's `userId`, not on who is signed in or on other documents |
| ProfilePage.FieldOr | Course-Recommender/src/pages/ProfilePage.js:30-34 | a stored field is read as its value, a missing one as `''` |
| ProfilePage.FromDoc | Course-Recommender/src/pages/ProfilePage.js:29-34 | each of the five fields is filled from the stored document, `''` where the document lacks it, with no error |
| ProfilePage.ToDoc | Course-Recommender/src/pages/ProfilePage.js:58-64 | the edit form writes exactly `name`, `age`, `jobRole`, `interestedCourses`, `likedCourses` |
| ProfilePage.Mount | Course-Recommender/src/pages/ProfilePage.js:15-43 | no user: redirect to `/signin` with replace and no read; otherwise one read of `userData/uid`: each field is the stored value or `''`, an absent document keeps all defaults with no error, a failed read sets the fetch error |
| ProfilePage.Submit | Course-Recommender/src/pages/ProfilePage.js:45-71 | no user: login error and no request; otherwise one merge-write of the five fields; success then navigates to `/dashboard` with replace; failure sets the save error, keeps the store and does not navigate |
| ProfilePage.SaveKeepsOtherFields | Course-Recommender/src/pages/ProfilePage.js:56-64 | the merge keeps every other field of `userData/uid` and every other document; the document afterwards has exactly the old fields plus the five |
| ProfilePage.SaveThenLoad | Course-Recommender/src/pages/ProfilePage.js:28-64 | saving the form and reloading the page gives back the five saved values with no error |
| ProfileSetup.ToDoc | Course-Recommender/src/pages/ProfileSetup.js:39-43 | the setup form writes exactly `careerGoals`, `skills`, `interests` |
| ProfileSetup.OnAuthChanged | Course-Recommender/src/pages/ProfileSetup.js:14-24 | no user: redirect to `/signin` with replace; a user is stored with no request |
| ProfileSetup.Submit | Course-Recommender/src/pages/ProfileSetup.js:26-57 | no user: login error and no request; a failed write sets the error with no recommend call; a written document is replaced by the three fields, then the recommend call for the same uid follows; a failed call sets the error without navigation; both succeeding navigates to `/dashboard` with replace |
| ProfileSetup.SubmitOrdering | Course-Recommender/src/pages/ProfileSetup.js:39-56 | a recommend call is issued only after a successful write for that uid, and navigation happens exactly when the user, the write and the call all succeed |
| ProfileSetup.OverwriteDropsOtherFields | Course-Recommender/src/pages/ProfileSetup.js:39-43 | after the write `userData/uid` holds exactly the three setup fields with the form's values, and other documents are unchanged |
| Recommender.Get | Course-Recommender/app.py:46-48 | `dict.get(key, '')`: the stored value, or `''` when the key is missing |
| Recommender.UserProfile | Course-Recommender/app.py:45-49 | the user profile holds goals, then a space, interests, a space, skills, each at a known position whatever it contains, missing answers empty |
| Recommender.CourseProfile | Course-Recommender/app.py:51-52 | the course profile holds title, a space, what-you-will-learn, a space, keyword, each at a known position |
| Recommender.UserProfileParts | Course-Recommender/app.py:45-49 | the user profile is goals, interests, skills joined by single spaces, missing answers empty: splitting it on spaces gives the three back when none contains a space |
| Recommender.CourseProfileParts | Course-Recommender/app.py:51-52 | the course profile is title, what-you-will-learn, keyword joined by single spaces: splitting it on spaces gives them back when none contains a space |
| Recommender.Insert | Course-Recommender/app.py:61 | inserting an index into a score-ascending index list keeps it ascending, adds exactly that index and keeps the indices in range |
| Recommender.InsertDistinct | Course-Recommender/app.py:61 | inserting a new index into a list without repeats leaves no repeats |
| Recommender.ArgsortUpTo | Course-Recommender/app.py:61 | the first k indices, each once, in ascending score order |
| Recommender.Argsort | Course-Recommender/app.py:61 | `argsort`: every index of the score vector exactly once, in ascending score order (one tie order; see Left out) |
| Recommender.SliceStart | Course-Recommender/app.py:61 | Python `a[-n:]` keeps min(n, len) items for positive n, all items for n = 0, and starts at min(-n, len) for negative n |
| Recommender.Reverse | Course-Recommender/app.py:61 | `[::-1]`: same length, item i is item len-1-i of the input |
| Recommender.TopIndices | Course-Recommender/app.py:61 | `argsort()[0, -top_n:][::-1]` over any ascending argsort: `a[-top_n:]` keeps as many entries as Python's slice does, and the picked list read back to front is the tail of the argsort |
| Recommender.TopIndicesSpec | Course-Recommender/app.py:59-63 | for every ascending argsort, whatever its order among equal scores, `recommend_courses` picks min(top_n, n) indices for positive top_n (all n for 0), in range, none twice, by non-increasing score, and no index left out scores above a picked one |
| Recommender.TopIndicesOrdered | Course-Recommender/app.py:61 | for every ascending argsort, the picked indices are in range, distinct, and by non-increasing score |
| Recommender.TopIndicesDominate | Course-Recommender/app.py:61 | for every ascending argsort, no index left out scores above any picked index |
| Recommender.LeftOutScoresLower | Course-Recommender/app.py:61 | one index left out scores no higher than every picked index |
| Recommender.RecommendCourses | Course-Recommender/app.py:62 | the returned courses are the catalogue rows at the picked indices, in that order |
| Recommender.Recommend | Course-Recommender/app.py:90-92 | the request recommends five catalogue courses, or the whole catalogue when it has fewer |
| Recommender.Scores | Course-Recommender/app.py:60 | the score vector has one entry per catalogue course, in catalogue order, scoring the user profile against that course's profile |
| Recommender.GetRecommendations | Course-Recommender/app.py:81-97 | a missing or empty `user_id` gives 400 and a missing or empty profile document gives 404, each with its message and the store untouched; otherwise 200 with min(5, catalogue size) courses, and `recommendations/user_id` is replaced by that same list |
| Recommender.RecommendationsAreTopScored | Course-Recommender/app.py:59-68 | the saved and returned courses come from distinct catalogue positions, best score first, and no course left out scores above one picked |
| Flows.SetupThenDashboard | Course-Recommender/src/pages/ProfileSetup.js:36-52 | after a successful setup write the recommend call for that uid returns 200 and scores goals, interests, skills in that order; the Dashboard (corrected observer, which agrees with the one as written on first load) then shows the first returned course, or "no courses" for an empty catalogue |
| Flows.SameCatalogSameLength | Course-Recommender/app.py:59-63 | any two successful `/recommend` responses over the same catalogue carry lists of the same length, whichever users they were for |
| Flows.EditKeepsRecommenderProfile | Course-Recommender/src/pages/ProfilePage.js:56-64 | an edit-form save leaves the profile text the recommender scores unchanged |
| Flows.SetupErasesEditFields | Course-Recommender/src/pages/ProfileSetup.js:39-43 | after a setup write the edit form loads five empty fields |

## Left out

- Firebase Auth, Firestore and the HTTP transport: each call's success is a boolean input. Store reads and writes are atomic. No client writes between a handler's read and its write; the recommendation service's save is modelled as its own step.
- Async interleavings, unmount races and listener teardown. Each handler runs to completion as one step. `Dashboard.OnAuthChanged` merges `setUser` with the awaited fetch, so the brief "no courses" render between them is not a separate step.
- ProfileSetup.Submit: the returned store holds only the form's own write. When the recommend call succeeds, the service has already replaced `recommendations/uid` (app.py:95 runs before the 200). That save is `Recommender.GetRecommendations`, applied after the setup write in `Flows.SetupThenDashboard`.
- TF-IDF vectorising and cosine similarity: an abstract integer-valued function of (user profile, course profile).
- Recommender.Argsort: numpy's `argsort` leaves the order of equal scores to its sort algorithm; the model fixes one order (the later index first), so when scores tie (an empty or stop-word-only profile scores every course 0) the saved list can differ from the program's. Every top-n property (`Recommender.TopIndicesSpec`) is proved for any ascending argsort, whatever its tie order.
- Python exceptions inside `/recommend` (store failures, missing CSV columns) become Flask's 500 response. The model treats the service's store access as reliable.
- Profile documents hold only strings, which is all either editor writes. Values of other types would change how `|| ''` and the f-string treat them.
- A recommendations document is always `{courses: list}`, the only shape `app.py` writes. Other shapes make `courses.length` or `courses.find` throw.
- `encodeURIComponent` / `decodeURIComponent`: the decoded title is an input, `None` when decoding throws.
- `new Date()`: the feedback timestamp is an opaque integer input.
- Rendering beyond the state choice: markup, `NavLink`, `console` logging. `alert` is kept as an `Alert` request.
- CSV loading, credentials and environment setup, Flask, CORS and waitress serving in `app.py`.
- `Login.js`, `SignUp.js` (thin wrappers over the identity provider), `LandingPage.js` (static markup), `App.js` (route table matched by the router library), `RecommendedCourses.js` (list rendering plus the same redirect), `streamlit_app.py` (a separate UI client).
- The unescaped `?user_id=<uid>` query string in `ProfileSetup.js`: uids are treated as plain values.

## Findings

| source | as written | input that shows it | evidently intended | confidence | as-written member | corrected member |
|---|---|---|---|---|---|---|
| Course-Recommender/src/pages/Dashboard.js:37 | the observer replaces the course list and keeps `currentIndex`, so `courses[currentIndex]` at line 98 can be `undefined` and reading its title at line 159 throws | a Dashboard showing the second of two courses (index 1), then a sign-in event whose stored list has one course | go back to the first course whenever the list is replaced | not executed; low in practice: lists the service saves from one catalogue all have the same length, so this needs a catalogue change or another writer | Dashboard.RefetchShorterListBreaks | Dashboard.OnAuthChangedReset (proved by Dashboard.ResetKeepsWf) |
