/**
 * The REST back end as a state machine: the collections are maps keyed by
 * id (reviews are kept in insertion order), and each route handler is a
 * method that validates its request, answers with the same status code and
 * message as the service, and updates the collections. The handlers keep
 * the service's behaviour as written, including the notes status
 * enumeration, the duplicate-review query and the published counts.
 *
 * The caller of an authenticated route is the decoded bearer token; the
 * clock, the password digest, uploaded files and the `URL` constructor's
 * verdict are parameters.
 */
module Server {
  import opened Wrappers
  import opened JsString
  import opened JsArray
  import opened ServerModel

  datatype EnrollReply = Enrolled(enrollment: Enrollment) | AlreadyEnrolled(enrollment: Enrollment)

  /** The `modules` form field: absent, not valid JSON, or a parsed module list. */
  datatype ModulesField = NoModules | Unparsable | ModulesJson(modules: seq<Module>)

  datatype Stats = Stats(
    totalUsers: nat,
    totalCourses: nat,
    totalNotes: nat,
    pendingCourses: nat,
    pendingNotes: nat,
    publishedCourses: nat,
    publishedNotes: nat)

  /** The accepted spellings of a role. */
  function RoleNamed(name: string): (r: Option<Role>)
    ensures r == Some(Student) <==> name == "student"
    ensures r == Some(Instructor) <==> name == "instructor"
    ensures r == Some(Admin) <==> name == "admin"
  {
    if name == "student" then Some(Student)
    else if name == "instructor" then Some(Instructor)
    else if name == "admin" then Some(Admin)
    else None
  }

  /** Where the upload middleware serves a stored file from. */
  function UploadPath(u: Upload): (p: string)
    ensures StartsWith(p, "/uploads/") && p[9..] == u.filename
  {
    "/uploads/" + u.filename
  }

  /**
   * The content-type rules of notes submission: a `file` item needs an
   * uploaded file, a `link` item a URL that the `URL` constructor accepts
   * (`parsesAsUrl`) and is tagged with the supplied `urlType` or else the
   * detected provider; any other content type is refused by the notes
   * collection's enumeration.
   */
  function NotesBodyFor(contentType: string, file: Option<Upload>, externalUrl: Option<string>,
                        urlType: Option<string>, parsesAsUrl: string -> bool): (r: Outcome<NotesBody>)
    ensures contentType == "file" && file.None? ==> r == Fail(400, "File is required for file type notes")
    ensures contentType == "file" && file.Some? ==>
      r == Ok(FileBody(UploadPath(file.value), file.value.originalName, file.value.size, file.value.mimeType))
    ensures contentType == "link" && !Truthy(externalUrl) ==> r == Fail(400, "URL is required for link type notes")
    ensures contentType == "link" && Truthy(externalUrl) && !parsesAsUrl(externalUrl.value) ==>
      r == Fail(400, "Please provide a valid URL")
    ensures r.Ok? && contentType == "link" ==>
      Truthy(externalUrl) && parsesAsUrl(externalUrl.value) && r.value.LinkBody? &&
      r.value.externalUrl == externalUrl.value &&
      (Truthy(urlType) ==> r.value.urlType == urlType.value) &&
      (!Truthy(urlType) ==> r.value.urlType == DetectUrlType(externalUrl.value))
    ensures contentType != "file" && contentType != "link" ==> r == Fail(500, "Submission failed")
  {
    if contentType == "file" then
      if file.None? then Fail(400, "File is required for file type notes")
      else Ok(FileBody(UploadPath(file.value), file.value.originalName, file.value.size, file.value.mimeType))
    else if contentType == "link" then
      if !Truthy(externalUrl) then Fail(400, "URL is required for link type notes")
      else if !parsesAsUrl(externalUrl.value) then Fail(400, "Please provide a valid URL")
      else Ok(LinkBody(externalUrl.value, if Truthy(urlType) then urlType.value else DetectUrlType(externalUrl.value)))
    else Fail(500, "Submission failed")
  }


  // ---------------------------------------------------------------- what each submission would store

  /**
   * The registration handler's decision. The four fields must be present,
   * the passwords must be equal and at least 6 characters long, and the
   * address must be unused (`taken` says whether an account already has
   * it). The new record must then satisfy the user collection's rules: a
   * known role, a name that is not blank once trimmed, and a blank-free
   * `a@b.c` address once lower-cased. Otherwise the generic server error is
   * returned. `credential` is the digest stored in place of the password.
   */
  function RegisterOutcome(fullName: Option<string>, email: Option<string>, password: Option<string>,
                           confirmPassword: Option<string>, role: Option<string>, taken: bool,
                           credential: string, now: Time): (r: Outcome<Account>)
    ensures !Truthy(fullName) || !Truthy(email) || !Truthy(password) || !Truthy(confirmPassword) ==>
      r == Fail(400, "All fields are required")
    ensures (Truthy(fullName) && Truthy(email) && Truthy(password) && Truthy(confirmPassword) &&
             password != confirmPassword) ==> r == Fail(400, "Passwords do not match")
    ensures (Truthy(fullName) && Truthy(email) && Truthy(password) && password == confirmPassword &&
             |password.value| < 6) ==> r == Fail(400, "Password must be at least 6 characters")
    ensures (Truthy(fullName) && Truthy(email) && Truthy(password) && password == confirmPassword &&
             |password.value| >= 6 && taken) ==> r == Fail(400, "User already exists with this email")
    ensures r.Ok? <==>
      Truthy(fullName) && Truthy(email) && Truthy(password) && password == confirmPassword &&
      |password.value| >= 6 && !taken &&
      RoleNamed(role.GetOr("student")).Some? && Trim(fullName.value) != "" && IsEmailShape(ToLower(email.value))
    ensures r.Fail? && r.code != 400 ==> r == Fail(500, "Server error during registration")
    ensures r.Ok? ==>
      r.value.fullName == Trim(fullName.value) && r.value.fullName != "" &&
      r.value.email == ToLower(email.value) && IsEmailShape(r.value.email) &&
      r.value.credential == credential && Some(r.value.role) == RoleNamed(role.GetOr("student")) &&
      r.value.isActive && r.value.enrolledCourses == [] && r.value.createdAt == now
  {
    if !Truthy(fullName) || !Truthy(email) || !Truthy(password) || !Truthy(confirmPassword) then
      Fail(400, "All fields are required")
    else if password != confirmPassword then Fail(400, "Passwords do not match")
    else if |password.value| < 6 then Fail(400, "Password must be at least 6 characters")
    else if taken then Fail(400, "User already exists with this email")
    else
      // `None` is a role absent from the request; an explicit `null` role is
      // not represented and reads as absent here.
      var parsedRole := RoleNamed(role.GetOr("student"));
      var name := Trim(fullName.value);
      var address := ToLower(email.value);
      if parsedRole.None? || name == "" || !IsEmailShape(address) then Fail(500, "Server error during registration")
      else Ok(Account(name, address, credential, parsedRole.value, true, [], now))
  }

  /**
   * The course collection's rules for modules: every module and every video
   * has a title, and every video has a link.
   */
  predicate ModulesStorable(ms: seq<Module>) {
    forall i :: 0 <= i < |ms| ==>
      ms[i].title != "" &&
      forall k :: 0 <= k < |ms[i].videos| ==> ms[i].videos[k].title != "" && ms[i].videos[k].url != ""
  }

  /**
   * The course-submission handler's decision. Title, description and
   * category must be present and a thumbnail uploaded. The record is then
   * built:
   * - the submitter is the instructor;
   * - the status is `published` for an admin and `pending` otherwise;
   * - the price follows the price rule;
   * - the tags are the trimmed comma-separated pieces;
   * - the modules are the parsed ones, or none when the field is absent or
   *   is not valid JSON;
   * - the duration and level take the collection's defaults.
   * The collection refuses the record, with the generic error, when the
   * title trims to nothing, the price is negative, the instructor has no
   * name, or a module or video lacks a required field.
   */
  function CourseSubmission(caller: Caller, title: Option<string>, description: Option<string>, category: Option<string>,
                            isFree: Option<string>, price: Option<real>, tags: Option<string>, youtubeUrl: Option<string>,
                            modules: ModulesField, thumbnail: Option<Upload>, now: Time): (r: Outcome<Course>)
    ensures !Truthy(title) || !Truthy(description) || !Truthy(category) ==>
      r == Fail(400, "Title, description, and category are required")
    ensures Truthy(title) && Truthy(description) && Truthy(category) && thumbnail.None? ==>
      r == Fail(400, "Course thumbnail is required")
    ensures r.Ok? <==>
      Truthy(title) && Truthy(description) && Truthy(category) && thumbnail.Some? &&
      Trim(title.value) != "" && CoursePrice(isFree == Some("true"), price) >= 0.0 && caller.fullName != "" &&
      ModulesStorable(if modules.ModulesJson? then modules.modules else [])
    ensures r.Fail? && r.code != 400 ==> r == Fail(500, "Submission failed")
    ensures r.Ok? ==>
      var c := r.value;
      c.title == Trim(title.value) && c.description == description.value && c.category == category.value &&
      c.thumbnail == UploadPath(thumbnail.value) && c.tags == ParseTags(tags) &&
      c.instructor == caller.id && c.instructorName == caller.fullName &&
      c.moderation == Moderation(InitialStatus(caller.role), None, None) &&
      c.isFree == (isFree == Some("true")) && c.price == CoursePrice(isFree == Some("true"), price) && c.price >= 0.0 &&
      c.duration == "10 hours" && c.level == "all-levels" && c.youtubeUrl == youtubeUrl &&
      c.modules == (if modules.ModulesJson? then modules.modules else []) &&
      c.rating == 0.0 && c.totalRatings == 0 && c.studentsEnrolled == 0 && c.createdAt == now
    ensures r.Ok? ==> (r.value.moderation.status == Published <==> caller.role == Admin)
  {
    if !Truthy(title) || !Truthy(description) || !Truthy(category) then
      Fail(400, "Title, description, and category are required")
    else if thumbnail.None? then Fail(400, "Course thumbnail is required")
    else
      var parsedModules := if modules.ModulesJson? then modules.modules else [];
      var free := isFree == Some("true");
      var course := Course(
        Trim(title.value), description.value, UploadPath(thumbnail.value), category.value, ParseTags(tags),
        caller.id, caller.fullName, Moderation(InitialStatus(caller.role), None, None),
        free, CoursePrice(free, price), "10 hours", "all-levels",
        youtubeUrl, parsedModules, 0.0, 0, 0, now);
      if course.title == "" || course.price < 0.0 || course.instructorName == "" || !ModulesStorable(course.modules) then
        Fail(500, "Submission failed")
      else Ok(course)
  }

  /**
   * The notes-submission handler's decision. Title, category and content
   * type must be present, and the content-type rules then decide the body.
   * The collection refuses the record, with the generic error, when the
   * title trims to nothing, a page count is given that does not parse as an
   * integer, the author has no name, or the collection's status
   * enumeration `statuses` does not admit the initial status: `published`
   * for an admin and `pending` otherwise. The item is stamped as published
   * now in either case.
   */
  function NotesSubmission(statuses: set<Status>, caller: Caller, title: Option<string>, description: Option<string>, category: Option<string>,
                           tags: Option<string>, pages: Option<string>, contentType: Option<string>,
                           externalUrl: Option<string>, urlType: Option<string>,
                           thumbnail: Option<Upload>, file: Option<Upload>, parsesAsUrl: string -> bool, now: Time)
    : (r: Outcome<Notes>)
    ensures !Truthy(title) || !Truthy(category) || !Truthy(contentType) ==>
      r == Fail(400, "Title, category, and content type are required")
    ensures Truthy(title) && Truthy(category) && Truthy(contentType) &&
            NotesBodyFor(contentType.value, file, externalUrl, urlType, parsesAsUrl).Fail? ==>
      r == Fail(NotesBodyFor(contentType.value, file, externalUrl, urlType, parsesAsUrl).code,
                NotesBodyFor(contentType.value, file, externalUrl, urlType, parsesAsUrl).message)
    ensures r.Ok? <==>
      Truthy(title) && Truthy(category) && Truthy(contentType) &&
      NotesBodyFor(contentType.value, file, externalUrl, urlType, parsesAsUrl).Ok? &&
      (Truthy(pages) ==> ParseInt(pages.value).Some?) && Trim(title.value) != "" && caller.fullName != "" &&
      InitialStatus(caller.role) in statuses
    ensures r.Ok? ==>
      var n := r.value;
      n.body == NotesBodyFor(contentType.value, file, externalUrl, urlType, parsesAsUrl).value &&
      n.title == Trim(title.value) && n.category == category.value &&
      n.description == (if Truthy(description) then description.value else "") &&
      n.tags == ParseTags(tags) && n.author == caller.id && n.authorName == caller.fullName &&
      n.thumbnail == (if thumbnail.Some? then UploadPath(thumbnail.value) else "") &&
      n.moderation == Moderation(InitialStatus(caller.role), None, Some(now)) &&
      n.isFree && n.downloads == 0 && n.rating == 0.0 && n.createdAt == now &&
      (Truthy(pages) ==> ParseInt(pages.value) == Some(n.pages)) && (!Truthy(pages) ==> n.pages == 0)
  {
    if !Truthy(title) || !Truthy(category) || !Truthy(contentType) then
      Fail(400, "Title, category, and content type are required")
    else
      var body := NotesBodyFor(contentType.value, file, externalUrl, urlType, parsesAsUrl);
      if body.Fail? then Fail(body.code, body.message)
      else if Truthy(pages) && ParseInt(pages.value).None? then Fail(500, "Submission failed")
      else
        var pageCount := if Truthy(pages) then ParseInt(pages.value).value else 0;
        var name := Trim(title.value);
        if name == "" || caller.fullName == "" || InitialStatus(caller.role) !in statuses then Fail(500, "Submission failed")
        else Ok(Notes(
          name, if Truthy(description) then description.value else "", category.value, ParseTags(tags),
          caller.id, caller.fullName, body.value,
          if thumbnail.Some? then UploadPath(thumbnail.value) else "", pageCount,
          Moderation(InitialStatus(caller.role), None, Some(now)), true, 0, 0.0, now))
  }

  /**
   * As written, the notes enumeration stores only an admin's submission;
   * for an admin the written and the course enumeration decide alike.
   */
  lemma NotesSubmissionAsWritten(caller: Caller, title: Option<string>, description: Option<string>, category: Option<string>,
                                 tags: Option<string>, pages: Option<string>, contentType: Option<string>,
                                 externalUrl: Option<string>, urlType: Option<string>,
                                 thumbnail: Option<Upload>, file: Option<Upload>, parsesAsUrl: string -> bool, now: Time)
    ensures caller.role != Admin ==>
      NotesSubmission(NotesStatusesAsWritten, caller, title, description, category, tags, pages, contentType,
                      externalUrl, urlType, thumbnail, file, parsesAsUrl, now).Fail?
    ensures caller.role == Admin ==>
      NotesSubmission(NotesStatusesAsWritten, caller, title, description, category, tags, pages, contentType,
                      externalUrl, urlType, thumbnail, file, parsesAsUrl, now) ==
      NotesSubmission(CourseStatuses, caller, title, description, category, tags, pages, contentType,
                      externalUrl, urlType, thumbnail, file, parsesAsUrl, now)
  {
  }

  /**
   * With the course enumeration the role no longer decides whether notes
   * are stored: a submission is accepted for any caller exactly when it is
   * for an admin of the same name, and it is stored as pending unless the
   * caller is an admin.
   */
  lemma NotesSubmissionCorrected(caller: Caller, title: Option<string>, description: Option<string>, category: Option<string>,
                                 tags: Option<string>, pages: Option<string>, contentType: Option<string>,
                                 externalUrl: Option<string>, urlType: Option<string>,
                                 thumbnail: Option<Upload>, file: Option<Upload>, parsesAsUrl: string -> bool, now: Time)
    ensures NotesSubmission(CourseStatuses, caller, title, description, category, tags, pages, contentType,
                            externalUrl, urlType, thumbnail, file, parsesAsUrl, now).Ok? <==>
            NotesSubmission(CourseStatuses, caller.(role := Admin), title, description, category, tags, pages, contentType,
                            externalUrl, urlType, thumbnail, file, parsesAsUrl, now).Ok?
    ensures caller.role != Admin &&
            NotesSubmission(CourseStatuses, caller, title, description, category, tags, pages, contentType,
                            externalUrl, urlType, thumbnail, file, parsesAsUrl, now).Ok? ==>
            NotesSubmission(CourseStatuses, caller, title, description, category, tags, pages, contentType,
                            externalUrl, urlType, thumbnail, file, parsesAsUrl, now).value.moderation.status == Pending
  {
  }

  // ---------------------------------------------------------------- the invariant

  /** Every id in use was handed out before `nextId`. */
  ghost predicate IdsIssued(ids: set<nat>, nextId: nat) {
    forall i :: i in ids ==> i < nextId
  }

  /** Addresses identify accounts, and no account lists a course twice. */
  ghost predicate AccountsValid(users: map<UserId, Account>) {
    (forall u, v :: u in users && v in users && u != v ==> users[u].email != users[v].email) &&
    (forall u :: u in users ==> NoDuplicates(users[u].enrolledCourses))
  }

  ghost predicate ProgressInRange(enrollments: map<(UserId, CourseId), Enrollment>) {
    forall k :: k in enrollments ==> 0.0 <= enrollments[k].progress <= 100.0
  }

  /** Every stored rating is within [1,5] and no user reviews a target twice. */
  ghost predicate ReviewsValid(reviews: seq<Review>) {
    (forall i :: 0 <= i < |reviews| ==> 1.0 <= reviews[i].rating <= 5.0) && OneReviewPerTarget(reviews)
  }

  ghost predicate CourseRatingsValid(courses: map<CourseId, Course>) {
    forall c :: c in courses ==> 0.0 <= courses[c].rating <= 5.0
  }

  ghost predicate NotesRatingsValid(notes: map<NotesId, Notes>) {
    forall n :: n in notes ==> 0.0 <= notes[n].rating <= 5.0
  }

  /** Every stored notes item has a status the notes enumeration admits. */
  ghost predicate NotesStatusesValid(notes: map<NotesId, Notes>) {
    forall n :: n in notes ==> notes[n].moderation.status in NotesStatusesAsWritten
  }

  /** The invariant the back end keeps over its collections. */
  ghost predicate StateValid(users: map<UserId, Account>, courses: map<CourseId, Course>, notes: map<NotesId, Notes>,
                             enrollments: map<(UserId, CourseId), Enrollment>, reviews: seq<Review>, nextId: nat) {
    IdsIssued(users.Keys + courses.Keys + notes.Keys, nextId) &&
    AccountsValid(users) &&
    ProgressInRange(enrollments) &&
    ReviewsValid(reviews) &&
    CourseRatingsValid(courses) &&
    NotesRatingsValid(notes) &&
    NotesStatusesValid(notes)
  }

  /** An account with an unused address, stored under the next id, keeps the invariant. */
  lemma StoreAccount(users: map<UserId, Account>, courses: map<CourseId, Course>, notes: map<NotesId, Notes>,
                     enrollments: map<(UserId, CourseId), Enrollment>, reviews: seq<Review>, nextId: nat, a: Account)
    requires StateValid(users, courses, notes, enrollments, reviews, nextId)
    requires a.enrolledCourses == [] && forall u :: u in users ==> users[u].email != a.email
    ensures nextId !in users
    ensures StateValid(users[nextId := a], courses, notes, enrollments, reviews, nextId + 1)
  {
    assert users[nextId := a].Keys + courses.Keys + notes.Keys == (users.Keys + courses.Keys + notes.Keys) + {nextId};
  }

  /** A course with a rating in range, stored under the next id, keeps the invariant. */
  lemma StoreCourse(users: map<UserId, Account>, courses: map<CourseId, Course>, notes: map<NotesId, Notes>,
                    enrollments: map<(UserId, CourseId), Enrollment>, reviews: seq<Review>, nextId: nat, c: Course)
    requires StateValid(users, courses, notes, enrollments, reviews, nextId)
    requires 0.0 <= c.rating <= 5.0
    ensures nextId !in courses
    ensures StateValid(users, courses[nextId := c], notes, enrollments, reviews, nextId + 1)
  {
    assert users.Keys + courses[nextId := c].Keys + notes.Keys == (users.Keys + courses.Keys + notes.Keys) + {nextId};
  }

  /** A notes item with a rating in range and an admitted status, stored under the next id, keeps the invariant. */
  lemma StoreNotes(users: map<UserId, Account>, courses: map<CourseId, Course>, notes: map<NotesId, Notes>,
                   enrollments: map<(UserId, CourseId), Enrollment>, reviews: seq<Review>, nextId: nat, n: Notes)
    requires StateValid(users, courses, notes, enrollments, reviews, nextId)
    requires 0.0 <= n.rating <= 5.0 && n.moderation.status in NotesStatusesAsWritten
    ensures nextId !in notes
    ensures StateValid(users, courses, notes[nextId := n], enrollments, reviews, nextId + 1)
  {
    assert users.Keys + courses.Keys + notes[nextId := n].Keys == (users.Keys + courses.Keys + notes.Keys) + {nextId};
  }

  /** Replacing a stored course by one whose rating is in range keeps the invariant. */
  lemma ReplaceCourse(users: map<UserId, Account>, courses: map<CourseId, Course>, notes: map<NotesId, Notes>,
                      enrollments: map<(UserId, CourseId), Enrollment>, reviews: seq<Review>, nextId: nat,
                      id: CourseId, c: Course)
    requires StateValid(users, courses, notes, enrollments, reviews, nextId)
    requires id in courses && (c.rating == courses[id].rating || 0.0 <= c.rating <= 5.0)
    ensures StateValid(users, courses[id := c], notes, enrollments, reviews, nextId)
  {
    assert courses[id := c].Keys == courses.Keys;
  }

  /** Replacing a stored notes item by one whose rating and status are admitted keeps the invariant. */
  lemma ReplaceNotes(users: map<UserId, Account>, courses: map<CourseId, Course>, notes: map<NotesId, Notes>,
                     enrollments: map<(UserId, CourseId), Enrollment>, reviews: seq<Review>, nextId: nat,
                     id: NotesId, n: Notes)
    requires StateValid(users, courses, notes, enrollments, reviews, nextId)
    requires id in notes && (n.rating == notes[id].rating || 0.0 <= n.rating <= 5.0)
    requires n.moderation.status == notes[id].moderation.status || n.moderation.status in NotesStatusesAsWritten
    ensures StateValid(users, courses, notes[id := n], enrollments, reviews, nextId)
  {
    assert notes[id := n].Keys == notes.Keys;
  }

  /** Adding a course to an account's list with `$addToSet` keeps the invariant. */
  lemma AddEnrolledCourse(users: map<UserId, Account>, courses: map<CourseId, Course>, notes: map<NotesId, Notes>,
                          enrollments: map<(UserId, CourseId), Enrollment>, reviews: seq<Review>, nextId: nat,
                          u: UserId, c: CourseId)
    requires StateValid(users, courses, notes, enrollments, reviews, nextId)
    requires u in users
    ensures StateValid(users[u := users[u].(enrolledCourses := AddToSet(users[u].enrolledCourses, c))],
                       courses, notes, enrollments, reviews, nextId)
  {
    var users' := users[u := users[u].(enrolledCourses := AddToSet(users[u].enrolledCourses, c))];
    assert users'.Keys == users.Keys;
    assert forall v :: v in users ==> users'[v].email == users[v].email;
  }

  /** Storing an enrolment whose progress is in range keeps the invariant. */
  lemma PutEnrollment(users: map<UserId, Account>, courses: map<CourseId, Course>, notes: map<NotesId, Notes>,
                      enrollments: map<(UserId, CourseId), Enrollment>, reviews: seq<Review>, nextId: nat,
                      key: (UserId, CourseId), e: Enrollment)
    requires StateValid(users, courses, notes, enrollments, reviews, nextId)
    requires 0.0 <= e.progress <= 100.0
    ensures StateValid(users, courses, notes, enrollments[key := e], reviews, nextId)
  {
  }

  /** Appending a review that passes the rating and duplicate checks keeps the invariant. */
  lemma AppendReview(users: map<UserId, Account>, courses: map<CourseId, Course>, notes: map<NotesId, Notes>,
                     enrollments: map<(UserId, CourseId), Enrollment>, reviews: seq<Review>, nextId: nat, r: Review)
    requires StateValid(users, courses, notes, enrollments, reviews, nextId)
    requires 1.0 <= r.rating <= 5.0 && !AlreadyReviewed(reviews, r.user, r.course, r.notes)
    ensures StateValid(users, courses, notes, enrollments, reviews + [r], nextId)
  {
    AppendKeepsOneReviewPerTarget(reviews, r);
  }

  /** `studentsEnrolled += 1` on an existing course, then `save()`; the other courses are untouched. */
  function WithOneMoreStudent(courses: map<CourseId, Course>, c: CourseId): (r: map<CourseId, Course>)
    requires c in courses
    ensures r.Keys == courses.Keys
    ensures r[c].studentsEnrolled == courses[c].studentsEnrolled + 1
    ensures r[c] == courses[c].(studentsEnrolled := r[c].studentsEnrolled)
    ensures forall d :: d in courses && d != c ==> r[d] == courses[d]
  {
    courses[c := courses[c].(studentsEnrolled := courses[c].studentsEnrolled + 1)]
  }

  /**
   * `$addToSet: { enrolledCourses: c }` on account `u`: the course joins the
   * list unless already there; an update of a missing account changes nothing.
   */
  function WithEnrolledCourse(users: map<UserId, Account>, u: UserId, c: CourseId): (r: map<UserId, Account>)
    ensures r.Keys == users.Keys
    ensures u in users ==>
      r[u] == users[u].(enrolledCourses := r[u].enrolledCourses) &&
      c in r[u].enrolledCourses && |users[u].enrolledCourses| <= |r[u].enrolledCourses| <= |users[u].enrolledCourses| + 1 &&
      r[u].enrolledCourses[..|users[u].enrolledCourses|] == users[u].enrolledCourses
    ensures forall v :: v in users && v != u ==> r[v] == users[v]
  {
    if u in users then
      var listed := AddToSet(users[u].enrolledCourses, c);
      assert listed[..|users[u].enrolledCourses|] == users[u].enrolledCourses;
      users[u := users[u].(enrolledCourses := listed)]
    else users
  }

  /** A first enrolment, counted on the course and listed on the account, keeps the invariant. */
  lemma StoreEnrolment(users: map<UserId, Account>, courses: map<CourseId, Course>, notes: map<NotesId, Notes>,
                       enrollments: map<(UserId, CourseId), Enrollment>, reviews: seq<Review>, nextId: nat,
                       u: UserId, c: CourseId, e: Enrollment)
    requires StateValid(users, courses, notes, enrollments, reviews, nextId)
    requires c in courses && 0.0 <= e.progress <= 100.0
    ensures StateValid(WithEnrolledCourse(users, u, c), WithOneMoreStudent(courses, c), notes,
                       enrollments[(u, c) := e], reviews, nextId)
  {
    PutEnrollment(users, courses, notes, enrollments, reviews, nextId, (u, c), e);
    ReplaceCourse(users, courses, notes, enrollments[(u, c) := e], reviews, nextId, c, WithOneMoreStudent(courses, c)[c]);
    assert WithOneMoreStudent(courses, c) == courses[c := WithOneMoreStudent(courses, c)[c]];
    if u in users {
      AddEnrolledCourse(users, WithOneMoreStudent(courses, c), notes, enrollments[(u, c) := e], reviews, nextId, u, c);
    }
  }

  class Backend {
    var users: map<UserId, Account>
    var courses: map<CourseId, Course>
    var notes: map<NotesId, Notes>
    var enrollments: map<(UserId, CourseId), Enrollment>
    var reviews: seq<Review>
    /** The next identifier to hand out; ids are unique across collections. */
    var nextId: nat

    ghost predicate Valid()
      reads this
    {
      StateValid(users, courses, notes, enrollments, reviews, nextId)
    }

    constructor ()
      ensures Valid()
      ensures users == map[] && courses == map[] && notes == map[]
      ensures enrollments == map[] && reviews == [] && nextId == 0
    {
      users, courses, notes := map[], map[], map[];
      enrollments, reviews, nextId := map[], [], 0;
    }

    /** Whether an account already uses this address, compared in lower case as stored. */
    predicate EmailTaken(email: Option<string>)
      reads this
    {
      email.Some? && exists u :: u in users && users[u].email == ToLower(email.value)
    }

    // ------------------------------------------------------------ saving new documents

    /** `new User(...).save()`: the account is stored under the next id. */
    method InsertAccount(a: Account) returns (id: UserId)
      requires Valid()
      requires a.enrolledCourses == [] && forall u :: u in users ==> users[u].email != a.email
      modifies this
      ensures Valid()
      ensures id == old(nextId) && id !in old(users) && nextId == id + 1 && users == old(users)[id := a]
      ensures courses == old(courses) && notes == old(notes) && enrollments == old(enrollments) && reviews == old(reviews)
    {
      StoreAccount(users, courses, notes, enrollments, reviews, nextId, a);
      users := users[nextId := a];
      id := nextId;
      nextId := nextId + 1;
    }

    /** `new Course(...).save()`: the course is stored under the next id. */
    method InsertCourse(c: Course) returns (id: CourseId)
      requires Valid()
      requires 0.0 <= c.rating <= 5.0
      modifies this
      ensures Valid()
      ensures id == old(nextId) && id !in old(courses) && nextId == id + 1 && courses == old(courses)[id := c]
      ensures users == old(users) && notes == old(notes) && enrollments == old(enrollments) && reviews == old(reviews)
    {
      StoreCourse(users, courses, notes, enrollments, reviews, nextId, c);
      courses := courses[nextId := c];
      id := nextId;
      nextId := nextId + 1;
    }

    /** `new Notes(...).save()`: the item is stored under the next id. */
    method InsertNotes(n: Notes) returns (id: NotesId)
      requires Valid()
      requires 0.0 <= n.rating <= 5.0 && n.moderation.status in NotesStatusesAsWritten
      modifies this
      ensures Valid()
      ensures id == old(nextId) && id !in old(notes) && nextId == id + 1 && notes == old(notes)[id := n]
      ensures users == old(users) && courses == old(courses) && enrollments == old(enrollments) && reviews == old(reviews)
    {
      StoreNotes(users, courses, notes, enrollments, reviews, nextId, n);
      notes := notes[nextId := n];
      id := nextId;
      nextId := nextId + 1;
    }

    // ------------------------------------------------------------ POST /api/register

    /**
     * Registration: the account the registration decision accepts is stored
     * under the next id; a refused request changes nothing.
     */
    method Register(fullName: Option<string>, email: Option<string>, password: Option<string>,
                    confirmPassword: Option<string>, role: Option<string>, credential: string, now: Time)
      returns (r: Outcome<UserId>)
      requires Valid()
      modifies this
      ensures Valid()
      ensures var d := RegisterOutcome(fullName, email, password, confirmPassword, role, old(EmailTaken(email)), credential, now);
        (d.Fail? ==> r == Fail(d.code, d.message) && unchanged(this)) &&
        (d.Ok? ==>
          r == Ok(old(nextId)) && old(nextId) !in old(users) && nextId == old(nextId) + 1 &&
          users == old(users)[old(nextId) := d.value] &&
          courses == old(courses) && notes == old(notes) && enrollments == old(enrollments) && reviews == old(reviews))
    {
      var d := RegisterOutcome(fullName, email, password, confirmPassword, role, EmailTaken(email), credential, now);
      if d.Fail? {
        return Fail(d.code, d.message);
      }
      var id := InsertAccount(d.value);
      r := Ok(id);
    }

    // ------------------------------------------------------------ POST /api/courses/:id/enroll

    /**
     * Enrolment: an unknown course is not found; an existing enrolment is
     * returned as it is; otherwise a fresh enrolment is created, the
     * course's enrolment counter goes up by one and the course joins the
     * user's course list unless already there.
     */
    method Enroll(caller: Caller, courseId: CourseId, now: Time) returns (r: Outcome<EnrollReply>)
      requires Valid()
      modifies this
      ensures Valid()
      ensures courseId !in old(courses) ==> r == Fail(404, "Course not found") && unchanged(this)
      ensures courseId in old(courses) && (caller.id, courseId) in old(enrollments) ==>
        r == Ok(AlreadyEnrolled(old(enrollments)[(caller.id, courseId)])) && unchanged(this)
      ensures courseId in old(courses) && (caller.id, courseId) !in old(enrollments) ==>
        r == Ok(Enrolled(Enrollment(0.0, false, now, now))) &&
        enrollments == old(enrollments)[(caller.id, courseId) := Enrollment(0.0, false, now, now)] &&
        courses == WithOneMoreStudent(old(courses), courseId) &&
        users == WithEnrolledCourse(old(users), caller.id, courseId) &&
        notes == old(notes) && reviews == old(reviews) && nextId == old(nextId)
    {
      if courseId !in courses {
        return Fail(404, "Course not found");
      }
      var key := (caller.id, courseId);
      if key in enrollments {
        return Ok(AlreadyEnrolled(enrollments[key]));
      }
      var e := Enrollment(0.0, false, now, now);
      StoreEnrolment(users, courses, notes, enrollments, reviews, nextId, caller.id, courseId, e);
      users, courses, enrollments :=
        WithEnrolledCourse(users, caller.id, courseId), WithOneMoreStudent(courses, courseId), enrollments[key := e];
      r := Ok(Enrolled(e));
    }

    // ------------------------------------------------------------ POST /api/courses/:id/progress

    /**
     * The progress upsert: `lastAccessed` is always stamped, a supplied
     * progress is clamped into [0,100] and a supplied completion flag is
     * stored; anything not supplied keeps its value, or its default when the
     * enrolment did not exist. The course is not looked up.
     */
    method UpdateProgress(caller: Caller, courseId: CourseId, progress: Option<real>, completed: Option<bool>, now: Time)
      returns (e: Enrollment)
      requires Valid()
      modifies this`enrollments
      ensures Valid()
      ensures enrollments == old(enrollments)[(caller.id, courseId) := e]
      ensures e.lastAccessed == now
      ensures 0.0 <= e.progress <= 100.0
      ensures progress.Some? ==> e.progress == ClampProgress(progress.value)
      ensures completed.Some? ==> e.completed == completed.value
      ensures (caller.id, courseId) in old(enrollments) ==>
        var before := old(enrollments)[(caller.id, courseId)];
        e.enrolledAt == before.enrolledAt &&
        (progress.None? ==> e.progress == before.progress) &&
        (completed.None? ==> e.completed == before.completed)
      ensures (caller.id, courseId) !in old(enrollments) ==>
        e.enrolledAt == now && (progress.None? ==> e.progress == 0.0) && (completed.None? ==> !e.completed)
    {
      var key := (caller.id, courseId);
      var base := if key in enrollments then enrollments[key] else Enrollment(0.0, false, now, now);
      e := base.(lastAccessed := now);
      if progress.Some? {
        e := e.(progress := ClampProgress(progress.value));
      }
      if completed.Some? {
        e := e.(completed := completed.value);
      }
      PutEnrollment(users, courses, notes, enrollments, reviews, nextId, key, e);
      enrollments := enrollments[key := e];
    }

    // ------------------------------------------------------------ POST /api/courses/submit

    /**
     * Course submission: the course the submission decision accepts is
     * stored under the next id; a refused request changes nothing.
     */
    method SubmitCourse(caller: Caller, title: Option<string>, description: Option<string>, category: Option<string>,
                        isFree: Option<string>, price: Option<real>, tags: Option<string>, youtubeUrl: Option<string>,
                        modules: ModulesField, thumbnail: Option<Upload>, now: Time)
      returns (r: Outcome<CourseId>)
      requires Valid()
      modifies this
      ensures Valid()
      ensures var d := CourseSubmission(caller, title, description, category, isFree, price, tags, youtubeUrl, modules, thumbnail, now);
        (d.Fail? ==> r == Fail(d.code, d.message) && unchanged(this)) &&
        (d.Ok? ==>
          r == Ok(old(nextId)) && old(nextId) !in old(courses) && nextId == old(nextId) + 1 &&
          courses == old(courses)[old(nextId) := d.value] &&
          users == old(users) && notes == old(notes) && enrollments == old(enrollments) && reviews == old(reviews))
    {
      var d := CourseSubmission(caller, title, description, category, isFree, price, tags, youtubeUrl, modules, thumbnail, now);
      if d.Fail? {
        return Fail(d.code, d.message);
      }
      var id := InsertCourse(d.value);
      r := Ok(id);
    }

    // ------------------------------------------------------------ POST /api/notes/submit

    /**
     * Notes submission: the item the submission decision accepts under the
     * notes enumeration as written is stored under the next id; a refused
     * request changes nothing.
     */
    method SubmitNotes(caller: Caller, title: Option<string>, description: Option<string>, category: Option<string>,
                       tags: Option<string>, pages: Option<string>, contentType: Option<string>,
                       externalUrl: Option<string>, urlType: Option<string>,
                       thumbnail: Option<Upload>, file: Option<Upload>, parsesAsUrl: string -> bool, now: Time)
      returns (r: Outcome<NotesId>)
      requires Valid()
      modifies this
      ensures Valid()
      ensures var d := NotesSubmission(NotesStatusesAsWritten, caller, title, description, category, tags, pages, contentType,
                                       externalUrl, urlType, thumbnail, file, parsesAsUrl, now);
        (d.Fail? ==> r == Fail(d.code, d.message) && unchanged(this)) &&
        (d.Ok? ==>
          r == Ok(old(nextId)) && old(nextId) !in old(notes) && nextId == old(nextId) + 1 &&
          notes == old(notes)[old(nextId) := d.value] &&
          users == old(users) && courses == old(courses) && enrollments == old(enrollments) && reviews == old(reviews))
    {
      var d := NotesSubmission(NotesStatusesAsWritten, caller, title, description, category, tags, pages, contentType,
                               externalUrl, urlType, thumbnail, file, parsesAsUrl, now);
      if d.Fail? {
        return Fail(d.code, d.message);
      }
      var id := InsertNotes(d.value);
      r := Ok(id);
    }

    // ------------------------------------------------------------ POST /api/reviews

    /**
     * A review: the rating must be present and within [1,5], and the
     * duplicate query as written must find no earlier review of the user's
     * that has the requested course or the requested notes item (an absent
     * id matching a review without that field). The review schema then
     * requires the author's name and limits the comment to 500 characters;
     * a save it refuses gives the generic error. The review is appended;
     * then, when a course id was given, that course's rating becomes the
     * mean of its reviews and its count their number, otherwise a named
     * notes item's rating becomes the mean of its reviews.
     */
    method AddReview(caller: Caller, courseId: Option<CourseId>, notesId: Option<NotesId>,
                     rating: Option<real>, comment: Option<string>, now: Time)
      returns (r: Outcome<Review>)
      requires Valid()
      modifies this
      ensures Valid()
      ensures !ValidRating(rating) ==> r == Fail(400, "Rating must be between 1 and 5")
      ensures ValidRating(rating) && DuplicateQueryAsWritten(old(reviews), caller.id, courseId, notesId) ==>
        r == Fail(400, "You have already reviewed this content")
      ensures ValidRating(rating) && !DuplicateQueryAsWritten(old(reviews), caller.id, courseId, notesId) &&
              !ReviewStorable(Review(caller.id, caller.fullName, courseId, notesId, rating.value, comment, now)) ==>
        r == Fail(500, "Server error")
      ensures r.Ok? <==>
        ValidRating(rating) && !DuplicateQueryAsWritten(old(reviews), caller.id, courseId, notesId) &&
        ReviewStorable(Review(caller.id, caller.fullName, courseId, notesId, rating.value, comment, now))
      ensures r.Ok? ==> !AlreadyReviewed(old(reviews), caller.id, courseId, notesId)
      ensures r.Fail? ==> unchanged(this)
      ensures r.Ok? ==>
        r.value == Review(caller.id, caller.fullName, courseId, notesId, rating.value, comment, now) &&
        reviews == old(reviews) + [r.value] &&
        users == old(users) && enrollments == old(enrollments) && nextId == old(nextId)
      ensures r.Ok? && courseId.Some? && courseId.value in old(courses) ==>
        var c := courseId.value;
        var ratings := CourseRatings(reviews, c);
        |ratings| > 0 && ratings == CourseRatings(old(reviews), c) + [rating.value] &&
        courses == old(courses)[c := old(courses)[c].(rating := Mean(ratings), totalRatings := |ratings|)] &&
        1.0 <= courses[c].rating <= 5.0
      ensures r.Ok? && (courseId.None? || courseId.value !in old(courses)) ==> courses == old(courses)
      ensures r.Ok? && courseId.None? && notesId.Some? && notesId.value in old(notes) ==>
        var n := notesId.value;
        var ratings := NotesRatings(reviews, n);
        |ratings| > 0 && ratings == NotesRatings(old(reviews), n) + [rating.value] &&
        notes == old(notes)[n := old(notes)[n].(rating := Mean(ratings))] &&
        1.0 <= notes[n].rating <= 5.0
      ensures r.Ok? && (courseId.Some? || notesId.None? || notesId.value !in old(notes)) ==> notes == old(notes)
    {
      if !ValidRating(rating) {
        return Fail(400, "Rating must be between 1 and 5");
      }
      if DuplicateQueryAsWritten(reviews, caller.id, courseId, notesId) {
        return Fail(400, "You have already reviewed this content");
      }
      var review := Review(caller.id, caller.fullName, courseId, notesId, rating.value, comment, now);
      if !ReviewStorable(review) {
        return Fail(500, "Server error");
      }
      CorrectedCheckIsNarrower(reviews, caller.id, courseId, notesId);
      SaveReview(review);
      r := Ok(review);
    }

    /** The review's save followed by the rating update of the course, or else of the notes item, it names. */
    method SaveReview(review: Review)
      requires Valid()
      requires 1.0 <= review.rating <= 5.0 && !AlreadyReviewed(reviews, review.user, review.course, review.notes)
      modifies this
      ensures Valid()
      ensures reviews == old(reviews) + [review]
      ensures users == old(users) && enrollments == old(enrollments) && nextId == old(nextId)
      ensures review.course.Some? && review.course.value in old(courses) ==>
        var c := review.course.value;
        var ratings := CourseRatings(reviews, c);
        |ratings| > 0 && ratings == CourseRatings(old(reviews), c) + [review.rating] &&
        courses == old(courses)[c := old(courses)[c].(rating := Mean(ratings), totalRatings := |ratings|)] &&
        1.0 <= courses[c].rating <= 5.0
      ensures review.course.None? || review.course.value !in old(courses) ==> courses == old(courses)
      ensures review.course.None? && review.notes.Some? && review.notes.value in old(notes) ==>
        var n := review.notes.value;
        var ratings := NotesRatings(reviews, n);
        |ratings| > 0 && ratings == NotesRatings(old(reviews), n) + [review.rating] &&
        notes == old(notes)[n := old(notes)[n].(rating := Mean(ratings))] &&
        1.0 <= notes[n].rating <= 5.0
      ensures review.course.Some? || review.notes.None? || review.notes.value !in old(notes) ==> notes == old(notes)
    {
      InsertReview(review);
      if review.course.Some? {
        UpdateCourseRating(review.course.value);
      } else if review.notes.Some? {
        UpdateNotesRating(review.notes.value);
      }
    }

    /** `new Review(...).save()` for a review that passed the rating and duplicate checks. */
    method InsertReview(review: Review)
      requires Valid()
      requires 1.0 <= review.rating <= 5.0 && !AlreadyReviewed(reviews, review.user, review.course, review.notes)
      modifies this`reviews
      ensures Valid()
      ensures reviews == old(reviews) + [review]
      ensures review.course.Some? ==>
        CourseRatings(reviews, review.course.value) == CourseRatings(old(reviews), review.course.value) + [review.rating]
      ensures review.notes.Some? ==>
        NotesRatings(reviews, review.notes.value) == NotesRatings(old(reviews), review.notes.value) + [review.rating]
    {
      AppendReview(users, courses, notes, enrollments, reviews, nextId, review);
      reviews := reviews + [review];
      assert reviews[..|reviews| - 1] == old(reviews);
    }

    /**
     * `updateCourseRating`: an existing course's rating becomes the mean of
     * the ratings of its reviews and its count their number.
     */
    method UpdateCourseRating(c: CourseId)
      requires Valid()
      requires CourseRatings(reviews, c) != []
      modifies this`courses
      ensures Valid()
      ensures c in old(courses) ==>
        courses == old(courses)[c := old(courses)[c].(rating := Mean(CourseRatings(reviews, c)),
                                                       totalRatings := |CourseRatings(reviews, c)|)] &&
        1.0 <= courses[c].rating <= 5.0
      ensures c !in old(courses) ==> courses == old(courses)
    {
      if c in courses {
        var ratings := CourseRatings(reviews, c);
        CourseRatingsInRange(reviews, c);
        MeanWithinRatingRange(ratings);
        var updated := courses[c].(rating := Mean(ratings), totalRatings := |ratings|);
        ReplaceCourse(users, courses, notes, enrollments, reviews, nextId, c, updated);
        courses := courses[c := updated];
      }
    }

    /** `updateNotesRating`: an existing notes item's rating becomes the mean of its reviews' ratings. */
    method UpdateNotesRating(n: NotesId)
      requires Valid()
      requires NotesRatings(reviews, n) != []
      modifies this`notes
      ensures Valid()
      ensures n in old(notes) ==>
        notes == old(notes)[n := old(notes)[n].(rating := Mean(NotesRatings(reviews, n)))] &&
        1.0 <= notes[n].rating <= 5.0
      ensures n !in old(notes) ==> notes == old(notes)
    {
      if n in notes {
        var ratings := NotesRatings(reviews, n);
        NotesRatingsInRange(reviews, n);
        MeanWithinRatingRange(ratings);
        var updated := notes[n].(rating := Mean(ratings));
        ReplaceNotes(users, courses, notes, enrollments, reviews, nextId, n, updated);
        notes := notes[n := updated];
      }
    }

    // ------------------------------------------------------------ POST /api/admin/content/:type/:id/approve

    /**
     * Moderation by an admin: the action must be `approve` or `reject`
     * (checked before any lookup), the type `course` or `notes`, and the
     * item must exist; the item's moderation fields then follow the
     * approve/reject transition and the reply carries the new status. The
     * notes enumeration as written has no `rejected`, so rejecting notes
     * fails at the save with the generic error.
     */
    method ModerateContent(caller: Caller, kind: string, id: nat, action: string, reason: Option<string>, now: Time)
      returns (r: Outcome<Status>)
      requires Valid()
      modifies this
      ensures Valid()
      ensures r.Fail? ==> unchanged(this)
      ensures caller.role != Admin ==> r == Fail(403, "Admin access required")
      ensures caller.role == Admin && ParseAction(action).None? ==> r == Fail(400, "Invalid action")
      ensures caller.role == Admin && ParseAction(action).Some? && kind != "course" && kind != "notes" ==>
        r == Fail(400, "Invalid content type")
      ensures caller.role == Admin && ParseAction(action).Some? && kind == "course" && id !in old(courses) ==>
        r == Fail(404, "Course not found")
      ensures caller.role == Admin && ParseAction(action).Some? && kind == "notes" && id !in old(notes) ==>
        r == Fail(404, "Notes not found")
      ensures caller.role == Admin && ParseAction(action).Some? && kind == "course" && id in old(courses) ==>
        var m := Transition(old(courses)[id].moderation, ParseAction(action).value, reason, now);
        r == Ok(m.status) && courses == old(courses)[id := old(courses)[id].(moderation := m)] &&
        notes == old(notes) && users == old(users) && enrollments == old(enrollments) &&
        reviews == old(reviews) && nextId == old(nextId)
      ensures caller.role == Admin && ParseAction(action).Some? && kind == "notes" && id in old(notes) ==>
        (r.Ok? <==> action == "approve") &&
        (action == "reject" ==> r == Fail(500, "Action failed")) &&
        (action == "approve" ==>
          var m := Transition(old(notes)[id].moderation, Approve, reason, now);
          r == Ok(Published) && notes == old(notes)[id := old(notes)[id].(moderation := m)] &&
          courses == old(courses) && users == old(users) && enrollments == old(enrollments) &&
          reviews == old(reviews) && nextId == old(nextId))
    {
      if caller.role != Admin {
        return Fail(403, "Admin access required");
      }
      var a := ParseAction(action);
      if a.None? {
        return Fail(400, "Invalid action");
      }
      if kind == "course" {
        if id !in courses {
          return Fail(404, "Course not found");
        }
        var m := Transition(courses[id].moderation, a.value, reason, now);
        ReplaceCourse(users, courses, notes, enrollments, reviews, nextId, id, courses[id].(moderation := m));
        courses := courses[id := courses[id].(moderation := m)];
        r := Ok(m.status);
      } else if kind == "notes" {
        if id !in notes {
          return Fail(404, "Notes not found");
        }
        var saved := SaveTransition(NotesStatusesAsWritten, notes[id].moderation, a.value, reason, now);
        if saved.Fail? {
          return Fail(saved.code, saved.message);
        }
        var m := saved.value;
        ReplaceNotes(users, courses, notes, enrollments, reviews, nextId, id, notes[id].(moderation := m));
        notes := notes[id := notes[id].(moderation := m)];
        r := Ok(m.status);
      } else {
        r := Fail(400, "Invalid content type");
      }
    }

    // ------------------------------------------------------------ GET /api/admin/stats

    /**
     * The admin dashboard counters: collection sizes, items awaiting review,
     * and as "published" every item that is not pending. Drafts and rejected
     * courses are counted as published; notes are never pending.
     */
    method GetStats(caller: Caller) returns (r: Outcome<Stats>)
      requires Valid()
      ensures caller.role != Admin ==> r == Fail(403, "Admin access required")
      ensures caller.role == Admin ==>
        (r.Ok? &&
         r.value.totalUsers == |users| && r.value.totalCourses == |courses| && r.value.totalNotes == |notes| &&
         r.value.pendingCourses == |PendingCourses(courses)| && r.value.pendingNotes == |PendingNotes(notes)| &&
         r.value.publishedCourses == PublishedCoursesAsWritten(courses) &&
         r.value.publishedNotes == PublishedNotesAsWritten(notes))
      ensures r.Ok? ==> r.value.publishedCourses + r.value.pendingCourses == r.value.totalCourses
      ensures r.Ok? ==> |PublishedCourses(courses)| <= r.value.publishedCourses
      ensures r.Ok? ==> r.value.pendingNotes == 0 && r.value.publishedNotes == r.value.totalNotes
    {
      if caller.role != Admin {
        return Fail(403, "Admin access required");
      }
      PublishedCountAgreement(courses);
      NotesNeverPending(notes);
      r := Ok(Stats(|users|, |courses|, |notes|,
                    |PendingCourses(courses)|, |PendingNotes(notes)|,
                    PublishedCoursesAsWritten(courses), PublishedNotesAsWritten(notes)));
    }
  }
}
