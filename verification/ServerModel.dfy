/**
 * The records the REST back end keeps (users, courses, notes, enrollments,
 * reviews) and the pure rules its route handlers apply: the initial
 * moderation status, the approve/reject transition, the provider tag of a
 * link, progress clamping, tag parsing and the rating mean.
 */
module ServerModel {
  import opened Wrappers
  import opened JsString

  type UserId = nat
  type CourseId = nat
  type NotesId = nat
  /** A timestamp read from the clock, which the caller supplies. */
  type Time = int

  datatype Role = Student | Instructor | Admin

  datatype Status = Draft | Pending | Published | Rejected

  /** The moderation fields that courses and notes share. */
  datatype Moderation = Moderation(status: Status, rejectionReason: Option<string>, publishedAt: Option<Time>)

  datatype Account = Account(
    fullName: string,
    email: string,
    credential: string,
    role: Role,
    isActive: bool,
    enrolledCourses: seq<CourseId>,
    createdAt: Time)

  datatype Video = Video(title: string, url: string, duration: string, isPreview: bool)

  datatype Module = Module(title: string, videos: seq<Video>)

  datatype Course = Course(
    title: string,
    description: string,
    thumbnail: string,
    category: string,
    tags: seq<string>,
    instructor: UserId,
    instructorName: string,
    moderation: Moderation,
    isFree: bool,
    price: real,
    duration: string,
    level: string,
    youtubeUrl: Option<string>,
    modules: seq<Module>,
    rating: real,
    totalRatings: nat,
    studentsEnrolled: nat,
    createdAt: Time)

  /** What a notes item holds, chosen by its `contentType` (`file` or `link`). */
  datatype NotesBody =
    | FileBody(fileUrl: string, originalFileName: string, fileSize: nat, fileType: string)
    | LinkBody(externalUrl: string, urlType: string)

  datatype Notes = Notes(
    title: string,
    description: string,
    category: string,
    tags: seq<string>,
    author: UserId,
    authorName: string,
    body: NotesBody,
    thumbnail: string,
    pages: int,
    moderation: Moderation,
    isFree: bool,
    downloads: nat,
    rating: real,
    createdAt: Time)

  datatype Enrollment = Enrollment(progress: real, completed: bool, enrolledAt: Time, lastAccessed: Time)

  datatype Review = Review(
    user: UserId,
    userName: string,
    course: Option<CourseId>,
    notes: Option<NotesId>,
    rating: real,
    comment: Option<string>,
    createdAt: Time)

  /** The identity a verified bearer token carries. */
  datatype Caller = Caller(id: UserId, fullName: string, role: Role)

  /** A file the upload middleware accepted. */
  datatype Upload = Upload(filename: string, originalName: string, size: nat, mimeType: string)

  /** A handler's reply: a value, or an HTTP error status with its message. */
  datatype Outcome<T> = Ok(value: T) | Fail(code: nat, message: string)

  // ---------------------------------------------------------------- submission

  /** Submissions by an admin are published at once; everyone else's wait for review. */
  function InitialStatus(role: Role): (s: Status)
    ensures s == Published <==> role == Admin
    ensures s == Pending <==> role != Admin
  {
    if role == Admin then Published else Pending
  }

  /** `isFree === 'true' ? 0 : parseFloat(price) || 0`, with `None` standing for NaN. */
  function CoursePrice(free: bool, price: Option<real>): (p: real)
    ensures free ==> p == 0.0
    ensures !free && price.Some? ==> p == price.value
    ensures price.None? ==> p == 0.0
  {
    if free then 0.0 else price.GetOr(0.0)
  }

  /** `tags ? tags.split(',').map(tag => tag.trim()) : []`. */
  function ParseTags(tags: Option<string>): (r: seq<string>)
    ensures !Truthy(tags) ==> r == []
    ensures Truthy(tags) ==> |r| == Occurrences(tags.value, ',') + 1 == |Split(tags.value, ',')|
    ensures Truthy(tags) ==> forall k :: 0 <= k < |r| ==> r[k] == Trim(Split(tags.value, ',')[k])
    ensures forall k :: 0 <= k < |r| ==> ',' !in r[k]
    ensures forall k :: 0 <= k < |r| && r[k] != [] ==> !IsWhitespace(r[k][0]) && !IsWhitespace(r[k][|r[k]| - 1])
  {
    if !Truthy(tags) then []
    else
      var parts := Split(tags.value, ',');
      seq(|parts|, i requires 0 <= i < |parts| => Trim(parts[i]))
  }

  /**
   * The provider tag of an external link: the first host fragment in this
   * order that the URL contains decides it.
   */
  function DetectUrlType(url: string): (t: string)
    ensures t in {"google-drive", "onedrive", "dropbox", "github", "youtube", "other"}
  {
    if Contains(url, "drive.google.com") then "google-drive"
    else if Contains(url, "onedrive.live.com") || Contains(url, "sharepoint.com") then "onedrive"
    else if Contains(url, "dropbox.com") then "dropbox"
    else if Contains(url, "github.com") then "github"
    else if Contains(url, "youtube.com") || Contains(url, "youtu.be") then "youtube"
    else "other"
  }

  /** The provider rules as a table: host fragments and the tag they give, in priority order. */
  const ProviderRules: seq<(seq<string>, string)> := [
    (["drive.google.com"], "google-drive"),
    (["onedrive.live.com", "sharepoint.com"], "onedrive"),
    (["dropbox.com"], "dropbox"),
    (["github.com"], "github"),
    (["youtube.com", "youtu.be"], "youtube")
  ]

  /** The tag of the first rule one of whose fragments the URL contains, else `other`. */
  function FirstMatchingRule(rules: seq<(seq<string>, string)>, url: string): string {
    if rules == [] then "other"
    else if exists h :: h in rules[0].0 && Contains(url, h) then rules[0].1
    else FirstMatchingRule(rules[1..], url)
  }

  /** `DetectUrlType` is the first-match-wins reading of the rule table. */
  lemma DetectUrlTypeIsFirstMatch(url: string)
    ensures DetectUrlType(url) == FirstMatchingRule(ProviderRules, url)
  {
    var r0 := ProviderRules;
    var r1 := r0[1..];
    var r2 := r1[1..];
    var r3 := r2[1..];
    var r4 := r3[1..];
    assert r4[1..] == [];
    RuleStep(r4, url);
    RuleStep(r3, url);
    RuleStep(r2, url);
    RuleStep(r1, url);
    RuleStep(r0, url);
  }

  /** One step of the table: the head rule decides when one of its one or two fragments occurs. */
  lemma RuleStep(rules: seq<(seq<string>, string)>, url: string)
    requires rules != [] && 1 <= |rules[0].0| <= 2
    ensures FirstMatchingRule(rules, url) ==
      if Contains(url, rules[0].0[0]) || (|rules[0].0| == 2 && Contains(url, rules[0].0[1])) then rules[0].1
      else FirstMatchingRule(rules[1..], url)
  {
    var hs := rules[0].0;
    if Contains(url, hs[0]) {
      assert hs[0] in hs;
    } else if |hs| == 2 && Contains(url, hs[1]) {
      assert hs[1] in hs;
    }
  }

  /** A Google Drive link is tagged `google-drive` whatever else it contains. */
  lemma DriveLinkTag(prefix: string, rest: string)
    ensures DetectUrlType(prefix + "drive.google.com" + rest) == "google-drive"
  {
    ContainsPrefix("drive.google.com", prefix, rest);
  }

  // ---------------------------------------------------------------- progress

  /** `Math.min(100, Math.max(0, progress))`. */
  function ClampProgress(p: real): (r: real)
    ensures 0.0 <= r <= 100.0
    ensures 0.0 <= p <= 100.0 ==> r == p
    ensures p < 0.0 ==> r == 0.0
    ensures p > 100.0 ==> r == 100.0
  {
    if p < 0.0 then 0.0 else if p > 100.0 then 100.0 else p
  }

  // ---------------------------------------------------------------- ratings

  /** `reduce((sum, r) => sum + r, 0)`. */
  function Sum(xs: seq<real>): real {
    if xs == [] then 0.0 else Sum(xs[..|xs| - 1]) + xs[|xs| - 1]
  }

  function Mean(xs: seq<real>): real
    requires |xs| > 0
  {
    Sum(xs) / (|xs| as real)
  }

  lemma {:induction false} SumBounds(xs: seq<real>, lo: real, hi: real)
    requires forall i :: 0 <= i < |xs| ==> lo <= xs[i] <= hi
    ensures lo * (|xs| as real) <= Sum(xs) <= hi * (|xs| as real)
  {
    if xs != [] {
      SumBounds(xs[..|xs| - 1], lo, hi);
    }
  }

  /** The mean of ratings in [1,5] lies in [1,5]. */
  lemma MeanWithinRatingRange(xs: seq<real>)
    requires |xs| > 0
    requires forall i :: 0 <= i < |xs| ==> 1.0 <= xs[i] <= 5.0
    ensures 1.0 <= Mean(xs) <= 5.0
  {
    SumBounds(xs, 1.0, 5.0);
    QuotientBounds(Sum(xs), |xs| as real);
  }

  /** A total between `n` and `5n` divided by the positive `n` lies in [1,5]. */
  lemma QuotientBounds(s: real, n: real)
    requires n > 0.0 && 1.0 * n <= s <= 5.0 * n
    ensures 1.0 <= s / n <= 5.0
  {
    var m := s / n;
    assert m * n == s;
    assert (m - 1.0) * n == s - 1.0 * n;
    assert (5.0 - m) * n == 5.0 * n - s;
    FactorSign(m - 1.0, n);
    FactorSign(5.0 - m, n);
  }

  /** A product with a positive factor is non-negative only when the other factor is. */
  lemma FactorSign(d: real, n: real)
    requires n > 0.0 && d * n >= 0.0
    ensures d >= 0.0
  {
  }

  /** The ratings of the reviews on course `c`, in insertion order. */
  function CourseRatings(reviews: seq<Review>, c: CourseId): (r: seq<real>)
    ensures |r| <= |reviews|
  {
    if reviews == [] then []
    else
      var init := CourseRatings(reviews[..|reviews| - 1], c);
      var last := reviews[|reviews| - 1];
      if last.course == Some(c) then init + [last.rating] else init
  }

  /** The ratings of the reviews on notes item `n`, in insertion order. */
  function NotesRatings(reviews: seq<Review>, n: NotesId): (r: seq<real>)
    ensures |r| <= |reviews|
  {
    if reviews == [] then []
    else
      var init := NotesRatings(reviews[..|reviews| - 1], n);
      var last := reviews[|reviews| - 1];
      if last.notes == Some(n) then init + [last.rating] else init
  }

  lemma CourseRatingsInRange(reviews: seq<Review>, c: CourseId)
    requires forall i :: 0 <= i < |reviews| ==> 1.0 <= reviews[i].rating <= 5.0
    ensures forall i :: 0 <= i < |CourseRatings(reviews, c)| ==> 1.0 <= CourseRatings(reviews, c)[i] <= 5.0
  {
    if reviews != [] {
      CourseRatingsInRange(reviews[..|reviews| - 1], c);
    }
  }

  lemma NotesRatingsInRange(reviews: seq<Review>, n: NotesId)
    requires forall i :: 0 <= i < |reviews| ==> 1.0 <= reviews[i].rating <= 5.0
    ensures forall i :: 0 <= i < |NotesRatings(reviews, n)| ==> 1.0 <= NotesRatings(reviews, n)[i] <= 5.0
  {
    if reviews != [] {
      NotesRatingsInRange(reviews[..|reviews| - 1], n);
    }
  }

  /** The check `!rating || rating < 1 || rating > 5`. */
  predicate ValidRating(rating: Option<real>) {
    rating.Some? && 1.0 <= rating.value <= 5.0
  }

  /**
   * Whether `user` has already reviewed the content named by the request:
   * the same course when a course id is given, the same notes item when a
   * notes id is given.
   */
  predicate AlreadyReviewed(reviews: seq<Review>, user: UserId, courseId: Option<CourseId>, notesId: Option<NotesId>) {
    exists i :: 0 <= i < |reviews| && reviews[i].user == user &&
      ((courseId.Some? && reviews[i].course == courseId) || (notesId.Some? && reviews[i].notes == notesId))
  }

  /**
   * The review schema's own rules: the author's name is required and a
   * comment is at most 500 characters long.
   */
  predicate ReviewStorable(r: Review) {
    r.userName != "" && (r.comment.Some? ==> |r.comment.value| <= 500)
  }

  /** No user has two reviews on the same course or on the same notes item. */
  predicate OneReviewPerTarget(reviews: seq<Review>) {
    forall i, j :: 0 <= i < j < |reviews| && reviews[i].user == reviews[j].user ==>
      (reviews[i].course.Some? ==> reviews[i].course != reviews[j].course) &&
      (reviews[i].notes.Some? ==> reviews[i].notes != reviews[j].notes)
  }

  /** A review that passes the duplicate check keeps one review per user and target. */
  lemma AppendKeepsOneReviewPerTarget(reviews: seq<Review>, r: Review)
    requires OneReviewPerTarget(reviews)
    requires !AlreadyReviewed(reviews, r.user, r.course, r.notes)
    ensures OneReviewPerTarget(reviews + [r])
  {
    var s := reviews + [r];
    forall i, j | 0 <= i < j < |s| && s[i].user == s[j].user
      ensures (s[i].course.Some? ==> s[i].course != s[j].course) && (s[i].notes.Some? ==> s[i].notes != s[j].notes)
    {
      if j == |reviews| {
        assert s[i] == reviews[i];
      }
    }
  }

  // ---------------------------------------------------------------- moderation

  datatype Action = Approve | Reject

  /** Only `approve` and `reject` are actions. */
  function ParseAction(action: string): (a: Option<Action>)
    ensures a == Some(Approve) <==> action == "approve"
    ensures a == Some(Reject) <==> action == "reject"
    ensures a.None? <==> action != "approve" && action != "reject"
  {
    if action == "approve" then Some(Approve)
    else if action == "reject" then Some(Reject)
    else None
  }

  /**
   * The approve/reject transition: approving publishes and stamps the time,
   * keeping any earlier rejection reason; rejecting records the reason only
   * when one is given, keeping any earlier publication time.
   */
  function Transition(m: Moderation, action: Action, reason: Option<string>, now: Time): (r: Moderation)
    ensures action == Approve ==> r.status == Published && r.publishedAt == Some(now) && r.rejectionReason == m.rejectionReason
    ensures action == Reject ==> r.status == Rejected && r.publishedAt == m.publishedAt
    ensures action == Reject && Truthy(reason) ==> r.rejectionReason == reason
    ensures action == Reject && !Truthy(reason) ==> r.rejectionReason == m.rejectionReason
  {
    match action
    case Approve => m.(status := Published, publishedAt := Some(now))
    case Reject => m.(status := Rejected, rejectionReason := if Truthy(reason) then reason else m.rejectionReason)
  }

  /** Approving again only moves the publication time forward. */
  lemma ApproveTwice(m: Moderation, t1: Time, t2: Time)
    ensures Transition(Transition(m, Approve, None, t1), Approve, None, t2) == Transition(m, Approve, None, t2)
  {
  }

  /** Rejecting published content keeps its publication time. */
  lemma RejectAfterApprove(m: Moderation, t1: Time, t2: Time, reason: Option<string>)
    ensures Transition(Transition(m, Approve, None, t1), Reject, reason, t2).publishedAt == Some(t1)
    ensures Transition(Transition(m, Approve, None, t1), Reject, reason, t2).status == Rejected
  {
  }

  // ---------------------------------------------------------------- admin statistics

  function PendingCourses(courses: map<CourseId, Course>): set<CourseId> {
    set c | c in courses && courses[c].moderation.status == Pending
  }

  function PublishedCourses(courses: map<CourseId, Course>): set<CourseId> {
    set c | c in courses && courses[c].moderation.status == Published
  }

  function PendingNotes(notes: map<NotesId, Notes>): set<NotesId> {
    set n | n in notes && notes[n].moderation.status == Pending
  }

  function PublishedNotes(notes: map<NotesId, Notes>): set<NotesId> {
    set n | n in notes && notes[n].moderation.status == Published
  }

  /** The number of published courses never exceeds the total less the pending ones. */
  lemma PublishedCountBound(courses: map<CourseId, Course>)
    ensures |PublishedCourses(courses)| + |PendingCourses(courses)| <= |courses|
  {
    var pub, pen := PublishedCourses(courses), PendingCourses(courses);
    assert pub !! pen;
    assert pub + pen <= courses.Keys;
    SubsetCardinality(pub + pen, courses.Keys);
  }

  lemma SubsetCardinality<T>(a: set<T>, b: set<T>)
    requires a <= b
    ensures |a| <= |b|
  {
    assert b == a + (b - a);
  }

  // ---------------------------------------------------------------- discrepancies in the source

  /** The statuses the course collection's enumeration admits: all four. */
  const CourseStatuses: set<Status> := {Draft, Pending, Published, Rejected}

  /**
   * The notes collection's status enumeration as written: only `published`
   * and `draft`. Saving a notes item with any other status fails validation.
   */
  const NotesStatusesAsWritten: set<Status> := {Published, Draft}

  /**
   * `save()` after an approve/reject transition: the collection's status
   * enumeration must admit the new status, otherwise the moderation
   * handler's generic failure answers and nothing is stored.
   */
  function SaveTransition(statuses: set<Status>, m: Moderation, action: Action, reason: Option<string>, now: Time)
    : (r: Outcome<Moderation>)
    ensures r.Ok? <==> Transition(m, action, reason, now).status in statuses
    ensures r.Ok? ==> r.value == Transition(m, action, reason, now)
    ensures r.Fail? ==> r == Fail(500, "Action failed")
  {
    var next := Transition(m, action, reason, now);
    if next.status in statuses then Ok(next) else Fail(500, "Action failed")
  }

  /** As written, rejecting notes always fails and approving them always succeeds. */
  lemma NotesRejectionFails(m: Moderation, reason: Option<string>, now: Time)
    ensures SaveTransition(NotesStatusesAsWritten, m, Reject, reason, now) == Fail(500, "Action failed")
    ensures SaveTransition(NotesStatusesAsWritten, m, Approve, reason, now).Ok?
  {
  }

  /**
   * With the course enumeration every approve/reject result is stored, so a
   * moderation's outcome is the transition itself.
   */
  lemma CourseEnumerationStoresTransitions(m: Moderation, action: Action, reason: Option<string>, now: Time)
    ensures SaveTransition(CourseStatuses, m, action, reason, now) == Ok(Transition(m, action, reason, now))
  {
  }

  /** The admin statistics as written: "published" is everything not pending. */
  function PublishedCoursesAsWritten(courses: map<CourseId, Course>): int {
    |courses| - |PendingCourses(courses)|
  }

  /** The notes statistic as written: "published" is everything not pending. */
  function PublishedNotesAsWritten(notes: map<NotesId, Notes>): int {
    |notes| - |PendingNotes(notes)|
  }

  /**
   * When every stored notes item has a status of the enumeration as written,
   * none is pending and the written count is the whole collection.
   */
  lemma NotesNeverPending(notes: map<NotesId, Notes>)
    requires forall n :: n in notes ==> notes[n].moderation.status in NotesStatusesAsWritten
    ensures PendingNotes(notes) == {}
    ensures PublishedNotesAsWritten(notes) == |notes|
  {
    assert forall n :: n in notes ==> n !in PendingNotes(notes);
  }

  /** A single rejected course is reported as published. */
  lemma RejectedCourseCountedAsPublished(c: Course)
    requires c.moderation.status == Rejected
    ensures PublishedCoursesAsWritten(map[0 := c]) == 1
    ensures |PublishedCourses(map[0 := c])| == 0
  {
    var m := map[0 := c];
    assert PendingCourses(m) == {};
    assert PublishedCourses(m) == {};
  }

  /**
   * The corrected count never exceeds the written one, and the two agree
   * exactly when no course is a draft or rejected.
   */
  lemma {:induction false} PublishedCountAgreement(courses: map<CourseId, Course>)
    ensures |PublishedCourses(courses)| <= PublishedCoursesAsWritten(courses)
    ensures |PublishedCourses(courses)| == PublishedCoursesAsWritten(courses) <==>
      forall c :: c in courses ==> courses[c].moderation.status in {Pending, Published}
  {
    CountPartition(courses);
    if forall c :: c in courses ==> courses[c].moderation.status in {Pending, Published} {
      assert UnlistedCourses(courses) == {};
    } else {
      var c :| c in courses && courses[c].moderation.status !in {Pending, Published};
      assert c in UnlistedCourses(courses);
    }
  }

  /** The courses that are neither pending nor published: drafts and rejected ones. */
  function UnlistedCourses(courses: map<CourseId, Course>): set<CourseId> {
    set c | c in courses && courses[c].moderation.status != Pending && courses[c].moderation.status != Published
  }

  /** Every course is published, pending or unlisted, and in exactly one of them. */
  lemma CountPartition(courses: map<CourseId, Course>)
    ensures |courses| == |PublishedCourses(courses)| + |PendingCourses(courses)| + |UnlistedCourses(courses)|
  {
    var pub, pen, rest := PublishedCourses(courses), PendingCourses(courses), UnlistedCourses(courses);
    assert courses.Keys == (pub + pen) + rest;
    assert pub !! pen;
    assert |pub + pen| == |pub| + |pen|;
    assert (pub + pen) !! rest;
  }


  /**
   * The duplicate-review query as written: `{course: courseId}` or
   * `{notes: notesId}` with an absent id matches every review lacking
   * that field.
   */
  predicate DuplicateQueryAsWritten(reviews: seq<Review>, user: UserId, courseId: Option<CourseId>, notesId: Option<NotesId>) {
    exists i :: 0 <= i < |reviews| && reviews[i].user == user &&
      (reviews[i].course == courseId || reviews[i].notes == notesId)
  }

  /**
   * As written, once a user has reviewed any course, every further course
   * review of theirs is refused: a request naming only a course leaves
   * `notesId` absent, which matches the earlier review.
   */
  lemma SecondCourseReviewRefused(reviews: seq<Review>, user: UserId, c: CourseId)
    requires exists i :: 0 <= i < |reviews| && reviews[i].user == user && reviews[i].course.Some? && reviews[i].notes.None?
    ensures DuplicateQueryAsWritten(reviews, user, Some(c), None)
  {
  }

  /** A user who reviewed course 1 only is refused course 2 as written, and admitted by the corrected check. */
  lemma OtherCourseReview(r: Review)
    requires r.course == Some(1) && r.notes == None
    ensures DuplicateQueryAsWritten([r], r.user, Some(2), None)
    ensures !AlreadyReviewed([r], r.user, Some(2), None)
  {
    assert [r][0] == r;
  }

  /**
   * The corrected check admits a user's review of a course they have not
   * reviewed, whatever else they reviewed.
   */
  lemma UnreviewedCourseAdmitted(reviews: seq<Review>, user: UserId, c: CourseId)
    requires forall i :: 0 <= i < |reviews| && reviews[i].user == user ==> reviews[i].course != Some(c)
    ensures !AlreadyReviewed(reviews, user, Some(c), None)
  {
  }

  /** Whatever the corrected check refuses, the written query refuses too. */
  lemma CorrectedCheckIsNarrower(reviews: seq<Review>, user: UserId, courseId: Option<CourseId>, notesId: Option<NotesId>)
    ensures AlreadyReviewed(reviews, user, courseId, notesId) ==> DuplicateQueryAsWritten(reviews, user, courseId, notesId)
  {
  }
}
