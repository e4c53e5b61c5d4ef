# E Siksha — a verified model of the learning platform's core

E Siksha is a learning platform. Students enrol in video courses and share study notes. Instructors submit courses and notes. Administrators approve or reject what is submitted.

This project models the core of the platform in Dafny:

- **The REST back end** (`Server`, with its data model and pure rules in `ServerModel`). The collections are kept as maps from ids to records, and reviews as a sequence in insertion order. The model covers:
  - registration;
  - enrolment;
  - the progress upsert;
  - course and notes submission;
  - reviews, with the course and notes rating recomputation;
  - moderation (approve or reject);
  - the admin statistics.

  Every handler is a method of the class `Backend`. Every refusal gives the same status code and message as the service, and the handlers follow the code as written: the three defects under "## Findings" are kept in the handlers, and the corrected rules are stated beside them. Each handler keeps an invariant:
  - every id lies below the id counter;
  - e-mail addresses are unique, and no account lists a course twice;
  - progress lies within [0,100];
  - ratings lie within [1,5];
  - a user has at most one review per course or notes item;
  - stored course and notes ratings lie within [0,5];
  - every stored notes item has a status the notes enumeration admits.
- **The web client's helpers**:
  - route guards (`Routes`);
  - the navigation bar (`Navbar`);
  - the static course catalogue (`CourseData`);
  - the course list and notes library filters (`CourseList`, `NotesLibrary`);
  - the home page (`Home`);
  - the course page's duration and star rendering (`CourseDetail`);
  - the admin dashboard badges and counters (`AdminDashboard`);
  - the built-in video player's playlist, YouTube id extraction and browser-stored notes (`VideoPlayer`);
  - the Google Drive viewer's id extraction and embed address (`DriveViewer`);
  - the content submission page's module editor (`AddContent`);
  - the registration form's validator (`Registration`).

Two modules, `JsString` and `JsArray`, hold the JavaScript string and array built-ins that the rest uses: `trim`, `toLowerCase`, `split`/`join`, `includes`, `filter`, `Set` de-duplication and `sort`.

Values the program reads from the outside world are parameters. These are the clock, the password digest, uploaded files, the verdicts of the `URL` constructor and of `decodeURIComponent`, and the browser storage.

## Model

| member | source | states |
|---|---|---|
| ServerModel.InitialStatus | backend/server.js:867 | a submission is published exactly when the submitter is an admin, and pending otherwise |
| ServerModel.CoursePrice | backend/server.js:862 | a free course costs 0; otherwise the parsed price, or 0 when it does not parse |
| ServerModel.ParseTags | backend/server.js:866 | absent or empty tags give no tags; otherwise tag k is the k-th comma-separated piece, trimmed, with one tag per piece and none containing a comma |
| JsString.JoinSplit | backend/server.js:866 | splitting on a separator and joining back gives the original text |
| JsString.TrimIsSlice | backend/server.js:866 | the trimmed text is the slice of the text after its leading blanks, and everything after that slice is blank |
| ServerModel.DetectUrlTypeIsFirstMatch | backend/server.js:1108-1115 | the provider tag is that of the first rule in the table whose host fragment occurs in the address, else `other` |
| ServerModel.DriveLinkTag | backend/server.js:1109 | an address containing `drive.google.com` is tagged `google-drive` whatever else it contains |
| ServerModel.ClampProgress | backend/server.js:793 | the stored progress lies in [0,100], equals the sent value when that is in range, and is clamped to the nearer bound otherwise |
| ServerModel.MeanWithinRatingRange | backend/server.js:1181 | the mean of ratings that are all within [1,5] is within [1,5] |
| ServerModel.CourseRatingsInRange | backend/server.js:1179-1181 | the ratings gathered for a course are within [1,5] when every stored rating is |
| ServerModel.NotesRatingsInRange | backend/server.js:1191-1193 | the ratings gathered for a notes item are within [1,5] when every stored rating is |
| ServerModel.AppendKeepsOneReviewPerTarget | backend/server.js:1131-1157 | appending a review that passes the duplicate check keeps at most one review per user and course or notes item |
| ServerModel.ParseAction | backend/server.js:1235-1240 | `approve` and `reject` are the only actions, in both directions |
| ServerModel.Transition | backend/server.js:1251-1257 | approving publishes, stamps the time and keeps the rejection reason; rejecting sets status rejected, keeps the publication time, and replaces the reason only when one is given |
| ServerModel.ApproveTwice | backend/server.js:1251-1257 | approving twice equals approving once at the later time |
| ServerModel.RejectAfterApprove | backend/server.js:1251-1257 | rejecting published content keeps its publication time |
| ServerModel.PublishedCountBound | backend/server.js:1316-1341 | published plus pending courses never exceed the total |
| ServerModel.SaveTransition | backend/server.js:1280-1309 | the save after an approve or reject succeeds exactly when the collection's status enumeration admits the new status, storing the transition; otherwise the reply is 500 `Action failed` |
| ServerModel.NotesRejectionFails | backend/server.js:272-276 | as written, rejecting notes always fails with 500 `Action failed`, and approving them always succeeds |
| ServerModel.CourseEnumerationStoresTransitions | backend/server.js:1251-1259 | under the course enumeration every approve or reject result is stored as the transition gives it |
| ServerModel.RejectedCourseCountedAsPublished | backend/server.js:1340-1341 | the count as written reports a lone rejected course as published, where the count by status gives 0 |
| ServerModel.PublishedCountAgreement | backend/server.js:1340-1341 | the count by status never exceeds the written count, and the two agree exactly when every course is pending or published |
| ServerModel.CountPartition | backend/server.js:1316-1341 | every course is pending, published or neither, so the three counts add up to the total |
| ServerModel.NotesNeverPending | backend/server.js:1320-1342 | when every stored notes item has a status the notes enumeration admits, none is pending and the written published count is the whole collection |
| ServerModel.SecondCourseReviewRefused | backend/server.js:1132-1138 | as written, once a user has reviewed a course, every further course review of theirs is refused |
| ServerModel.OtherCourseReview | backend/server.js:1132-1138 | a user who reviewed only course 1 is refused course 2 by the written query and admitted by the corrected check |
| ServerModel.UnreviewedCourseAdmitted | backend/server.js:1131-1145 | the corrected check admits a review of any course the user has not reviewed, whatever else they reviewed |
| ServerModel.CorrectedCheckIsNarrower | backend/server.js:1132-1138 | whatever the corrected check refuses, the written query refuses too |
| Server.RoleNamed | backend/server.js:162-166 | `student`, `instructor` and `admin` are the only roles, each in both directions |
| Server.UploadPath | backend/server.js:863 | an uploaded file is served under `/uploads/` followed by its stored name |
| Server.NotesBodyFor | backend/server.js:1009-1039 | a file item needs an upload (400 otherwise); a link item needs a URL (400), one the URL parser accepts (400), and takes the given tag or else the detected provider; any other content type fails with 500 |
| Server.RegisterOutcome | backend/server.js:364-443 | missing fields, mismatched passwords, a short password and a taken address each get their own 400, in that order; success is exactly when these pass and the user collection accepts the record (known role, a name not blank once trimmed, a blank-free `a@b.c` address once lower-cased); the account holds the trimmed name, the lower-cased address, the digest, the role, an empty course list and the time; every other failure is the generic 500 |
| Server.CourseSubmission | backend/server.js:815-892 | missing title, description or category, then a missing thumbnail, get their own 400; success is exactly when the course collection accepts the record (title not blank, price not negative, instructor named, every module and video with its required fields); the record carries the caller as instructor, the price rule, the trimmed tags, the parsed modules and the defaults, and is published exactly when the caller is an admin; every other failure is the generic 500 |
| Server.NotesSubmission | backend/server.js:967-1065 | missing title, category or content type get 400; a failing content-type rule passes its own reply on; success is exactly when the body rule succeeds, a given page count parses, the title is not blank, the author is named and the given status enumeration admits the initial status; the item carries the caller as author, the rule's body, the trimmed tags, a status published exactly for an admin, and is stamped published now |
| Server.NotesSubmissionAsWritten | backend/server.js:272-276 | under the notes enumeration as written, a non-admin's submission always fails; an admin's is decided as under the course enumeration |
| Server.NotesSubmissionCorrected | backend/server.js:1003 | under the course enumeration, whether a submission is stored does not depend on the caller's role, and a non-admin's item is stored as pending |
| Server.StoreAccount | backend/server.js:401-408 | storing an account with an unused address and no courses under the next id keeps the back end's invariant |
| Server.StoreCourse | backend/server.js:855-870 | storing a course with its rating in range under the next id keeps the invariant |
| Server.StoreNotes | backend/server.js:1046-1047 | storing a notes item with its rating in range and a status the notes enumeration admits under the next id keeps the invariant |
| Server.ReplaceCourse | backend/server.js:764-766 | replacing a stored course by one with the same or an in-range rating keeps the invariant |
| Server.ReplaceNotes | backend/server.js:1190-1200 | replacing a stored notes item by one with the same or an in-range rating, and the same or an admitted status, keeps the invariant |
| Server.AddEnrolledCourse | backend/server.js:768-771 | adding a course to an account's list with `$addToSet` keeps the addresses unique and the list free of repeats |
| Server.PutEnrollment | backend/server.js:785-813 | storing an enrolment whose progress is in [0,100] keeps the invariant |
| Server.AppendReview | backend/server.js:1148-1157 | appending a review that passes the rating and duplicate checks keeps every rating in [1,5] and one review per user and target |
| Server.WithOneMoreStudent | backend/server.js:764-766 | the course's enrolment counter rises by one; its other fields and every other course are unchanged |
| Server.WithEnrolledCourse | backend/server.js:768-771 | the account's list keeps its old entries as a prefix and holds the course, growing by at most one; a missing account changes nothing; other accounts are unchanged |
| Server.StoreEnrolment | backend/server.js:755-771 | a first enrolment, counted on the course and listed on the account, keeps the invariant |
| Server.Backend.InsertAccount | backend/server.js:401-408 | the account is stored under the counter's value, which was unused, the counter rises by one, the invariant holds, and nothing else changes |
| Server.Backend.InsertCourse | backend/server.js:855-870 | the course is stored under the counter's value, which was unused, the counter rises by one, and nothing else changes |
| Server.Backend.InsertNotes | backend/server.js:1046-1047 | the item is stored under the counter's value, which was unused, the counter rises by one, and nothing else changes |
| Server.Backend.Register | backend/server.js:364-443 | the reply is the registration decision, with the address checked against the stored accounts in lower case; a refused request changes nothing; an accepted account is stored under a fresh id and nothing else changes |
| Server.Backend.Enroll | backend/server.js:726-783 | an unknown course is 404; an existing enrolment is returned unchanged; otherwise a new enrolment is stored, the course counter rises by one, and the course is added to the user's list only when absent |
| Server.Backend.UpdateProgress | backend/server.js:785-813 | the enrolment is upserted with the time stamped, progress clamped into [0,100], completion stored, and absent fields kept or defaulted |
| Server.Backend.SubmitCourse | backend/server.js:815-892 | the reply is the course-submission decision; a refused request changes nothing; an accepted course is stored under a fresh id and nothing else changes |
| Server.Backend.SubmitNotes | backend/server.js:967-1065 | the reply is the notes-submission decision under the notes enumeration as written; a refused request changes nothing; an accepted item is stored under a fresh id and nothing else changes |
| Server.Backend.AddReview | backend/server.js:1120-1176 | an invalid rating gets 400; a match of the written duplicate query gets 400; an empty author name or a comment over 500 characters gets 500 `Server error`; a refused request changes nothing; otherwise the review, which the corrected check also admits, is appended and the named course's rating becomes the mean of its reviews with their count, or else the named notes item's rating becomes its mean, the mean lying in [1,5] |
| Server.Backend.SaveReview | backend/server.js:1157-1164 | the review is appended; the course it names, when stored, gets the mean and count of its ratings, which gained exactly this one; otherwise a stored notes item it names gets its mean; nothing else changes |
| Server.Backend.InsertReview | backend/server.js:1148-1157 | the review is appended, and the rating lists of the course and notes item it names each gain its rating at the end |
| Server.Backend.UpdateCourseRating | backend/server.js:1178-1188 | an existing course's rating becomes the mean of its reviews' ratings and its count their number; nothing else changes |
| Server.Backend.UpdateNotesRating | backend/server.js:1190-1200 | an existing notes item's rating becomes the mean of its reviews' ratings; nothing else changes |
| Server.Backend.ModerateContent | backend/server.js:1230-1311 | non-admins get 403; a bad action gets 400 before any lookup; a bad type gets 400; an unknown item gets 404; a course then follows the approve/reject transition; notes are approved as published, while rejecting them gets 500 `Action failed` and changes nothing; nothing else changes |
| Server.Backend.GetStats | backend/server.js:1313-1353 | non-admins get 403; admins get the collection sizes, the pending counts, and as published counts the totals less the pending ones; the published course count is at least the count by status, and no notes item is pending |
| CourseDetail.HoursAndMinutes | frontend/src/CourseDetail.js:96-98 | a duration `a:b` counts a hours and b minutes |
| CourseDetail.HoursOnly | frontend/src/CourseDetail.js:96-98 | a duration without a colon counts entirely as hours |
| CourseDetail.TotalMinutesAppend | frontend/src/CourseDetail.js:95-100 | the total duration of two lists is the sum of their totals |
| CourseDetail.TotalMinutesSnoc | frontend/src/CourseDetail.js:95-100 | one more video adds its own minutes to the total |
| CourseDetail.ColonDigits | frontend/src/CourseDetail.js:96-98 | two digit runs around the colon count as hours and minutes |
| CourseDetail.FormatDuration | frontend/src/CourseDetail.js:102-108 | the written duration ends in `m`; under an hour it is the minutes followed by `m`, otherwise the hours, `h `, the remaining minutes and `m` |
| CourseDetail.FormatDurationRoundTrip | frontend/src/CourseDetail.js:102-108 | reading the written duration back gives the total minutes |
| CourseDetail.FormatDurationInjective | frontend/src/CourseDetail.js:102-108 | different totals are written differently |
| CourseDetail.GetTotalDuration | frontend/src/CourseDetail.js:91-109 | no videos give `00:00`; otherwise the written sum of the durations, which reads back as that sum |
| AddContent.SubmittedVideosTotal | frontend/src/CourseDetail.js:96-101 | every video the course form submits carries `10:00`, which the course page reads as ten hours, so submitted videos total 600 minutes each |
| CourseDetail.FractionJs | frontend/src/CourseDetail.js:77 | `rating % 1` lies in (-1,1), is the fractional part for non-negative ratings, and is not positive for negative ones |
| CourseDetail.RenderStars | frontend/src/CourseDetail.js:74-89 | five icons, icon i being full, half or empty by the rating's floor and fraction |
| CourseDetail.FullStars | frontend/src/CourseDetail.js:76-81 | the row shows min(5, floor(rating)) full stars, and none for a rating below 1 |
| CourseDetail.HalfStar | frontend/src/CourseDetail.js:77-83 | at most one half star, placed right after the full ones, present exactly when the floor is below 5 and the fraction is at least 0.5 |
| CourseDetail.WholeRatingHasNoHalf | frontend/src/CourseDetail.js:77-83 | a whole rating shows no half star |
| Navbar.FirstCharsOfWords | frontend/src/Navbar.js:42-46 | the first letters of the blank-separated words are the letters that follow a blank or start the text |
| Navbar.GetInitials | frontend/src/Navbar.js:40-48 | no name gives `U`; otherwise at most two characters, the upper-cased first letters of the words |
| Navbar.InitialsOfTwoWords | frontend/src/Navbar.js:40-48 | a two-word name gives its two upper-cased initials |
| Navbar.DashboardPath | frontend/src/Navbar.js:26-38 | no stored user leads to `/login`; an admin to `/admin`, exactly; any other user to `/dashboard` |
| Navbar.DashboardButtonAgreesWithAdminGuard | frontend/src/Navbar.js:26-38 | with a token stored, the button leads to `/admin` exactly when the admin guard renders |
| Navbar.NavbarState.constructor | frontend/src/Navbar.js:5-16 | the bar shows the stored user with the dropdown closed |
| Navbar.NavbarState.HandleLogout | frontend/src/Navbar.js:18-24 | both storage slots and the shown user are cleared and the dropdown closed; the location is `/login`, where the protected guard would redirect |
| Navbar.NavbarState.NavigateToDashboard | frontend/src/Navbar.js:26-38 | the location becomes the dashboard path of the stored user |
| Routes.ProtectedRoute | frontend/src/index.js:29-38 | renders exactly when a token and a user are stored, else redirects to `/login` |
| Routes.AdminRoute | frontend/src/index.js:41-54 | no token leads to `/login`; a non-admin or missing user leads to `/dashboard`; renders exactly for an admin |
| Routes.PublicRoute | frontend/src/index.js:57-66 | redirects to `/` exactly when a token and a user are stored |
| Routes.ProtectedAndPublicExclusive | frontend/src/index.js:29-66 | in every storage state exactly one of the protected and public guards renders |
| Routes.AdminWithoutUserGoesToDashboard | frontend/src/index.js:41-54 | a token with no user is sent to `/dashboard` by the admin guard but to `/login` by the protected guard |
| Routes.AdminImpliesProtected | frontend/src/index.js:29-54 | whatever the admin guard renders, the protected guard renders too |
| CourseData.CatalogueIds | frontend/src/Data/courseData.js:2-159 | the catalogue has twelve entries, entry k having id k+1 |
| CourseData.FindById | frontend/src/Data/courseData.js:163 | the first entry with the id, present exactly when some entry has it |
| CourseData.GetCourseById | frontend/src/Data/courseData.js:162-164 | the entry whose id is the parsed number, none when the text does not parse or no id matches |
| CourseData.LookupByDecimalId | frontend/src/Data/courseData.js:162-164 | the decimal text of ids 1 to 12 finds that entry |
| CourseData.LookupByHexId | frontend/src/Data/courseData.js:162-164 | `parseInt` without a radix also reads `0x` text, so the hexadecimal text of ids 1 to 12 finds that entry |
| JsString.ParseIntOfHexText | frontend/src/Data/courseData.js:163 | `parseInt` reads `0x` followed by the hexadecimal text of any natural number back as that number |
| JsString.ParseIntOfNatToString | backend/server.js:998 | `parseInt` reads the decimal text of any natural number back as that number |
| CourseData.GetCoursesByCategory | frontend/src/Data/courseData.js:166-170 | exactly the entries whose category contains the argument ignoring case, in table order |
| CourseData.EmptyCategoryMatchesAll | frontend/src/Data/courseData.js:166-170 | the empty argument returns the whole catalogue |
| CourseData.GetPopularCourses | frontend/src/Data/courseData.js:172-174 | exactly the popular entries, in order |
| CourseData.GetNewCourses | frontend/src/Data/courseData.js:176-178 | exactly the new entries, in order |
| CourseData.GetFreeCourses | frontend/src/Data/courseData.js:180-182 | exactly the free entries, in order |
| CourseData.BadgeListsPartition | frontend/src/Data/courseData.js:172-182 | when every badge is one of the three, the three lists' lengths add up to the list's |
| CourseData.CatalogueBadgesPartition | frontend/src/Data/courseData.js:172-182 | every catalogue entry is in exactly one of the popular, new and free lists |
| CourseData.GetAllCourses | frontend/src/Data/courseData.js:184-186 | a fresh array holding the catalogue in order |
| CourseData.GetCategories | frontend/src/Data/courseData.js:188-190 | every category of the catalogue, each once |
| CourseData.CategoriesInFirstAppearanceOrder | frontend/src/Data/courseData.js:188-190 | categories come in order of their first appearance |
| CourseData.CategoriesOfCatalogue | frontend/src/Data/courseData.js:188-190 | the twelve entries have twelve distinct categories, listed in table order |
| CourseList.FilteredCourses | frontend/src/List.js:49-59 | exactly the courses passing the search, category and level filters, in order |
| JsArray.FilterMultiplicity | frontend/src/List.js:49-59 | the filter keeps every occurrence of a passing value and no occurrence of a failing one |
| CourseList.NoFiltersKeepsAll | frontend/src/List.js:49-59 | with no filter every course is shown, in order |
| CourseList.FilteredCourseMatches | frontend/src/List.js:49-59 | a shown course has the chosen category and level, and the search occurs in its title, description or a tag |
| CourseList.LongerSearchNarrows | frontend/src/List.js:50-53 | extending the search text never brings a course back |
| CourseList.CategoryOptions | frontend/src/List.js:62 | every non-empty category once, sorted |
| CourseList.LevelOptions | frontend/src/List.js:63 | every non-empty level once, sorted |
| CourseList.OfferedCategoryIsNonEmpty | frontend/src/List.js:49-62 | choosing an offered category shows at least one course |
| CourseList.GetBadge | frontend/src/List.js:66-70 | free when free; popular exactly above 10000 students; new otherwise |
| CourseList.BadgeThresholdMonotone | frontend/src/List.js:66-70 | raising the threshold can only turn popular into new |
| NotesLibrary.FilteredNotes | frontend/src/Pdf.js:54-64 | exactly the notes passing the search and category filters, in order |
| NotesLibrary.NoFiltersKeepsAll | frontend/src/Pdf.js:54-64 | with no filter every note is shown, in order |
| NotesLibrary.CategoryOptions | frontend/src/Pdf.js:67 | every non-empty category once, sorted |
| NotesLibrary.TotalDownloadsAppend | frontend/src/Pdf.js:81 | the total downloads of two lists is the sum of their totals |
| NotesLibrary.TotalDownloadsBounds | frontend/src/Pdf.js:81 | with non-negative counters the total is non-negative and at least each note's count |
| NotesLibrary.MissingCounterAddsNothing | frontend/src/Pdf.js:81 | a note without a counter adds nothing |
| NotesLibrary.TotalContributors | frontend/src/Pdf.js:84 | the number of distinct contributor keys, at most the number of notes and at least 1 when there is a note |
| NotesLibrary.OneAuthorOneContributor | frontend/src/Pdf.js:84 | notes by one author count one contributor |
| NotesLibrary.DistinctAuthorsEachCount | frontend/src/Pdf.js:84 | notes by all-different authors count one contributor each |
| Home.GetImageUrl | frontend/src/Home.js:52-56 | no thumbnail gives the default picture; an `http` address is kept; anything else is prefixed with the server origin; the result always starts with `http` |
| Home.GetImageUrlIdempotent | frontend/src/Home.js:52-56 | resolving a resolved address changes nothing |
| Home.UploadPathResolves | frontend/src/Home.js:52-56 | an `/uploads/` path resolves to the back end's file address |
| Home.NotesImage | frontend/src/Home.js:343 | a note's picture is its resolved thumbnail, or the notes default |
| Home.GetCourseBadge | frontend/src/Home.js:109-113 | free when free; popular exactly above 5000 students; new otherwise |
| Home.BadgesDisagreeOnlyBetweenThresholds | frontend/src/Home.js:109-113 | the home and list badges differ exactly for paid courses with 5001 to 10000 students |
| Home.Placeholders | frontend/src/Home.js:295 | the placeholders bring the row up to its capacity, and there are none at or above it |
| Home.RowsAreFilled | frontend/src/Home.js:295-363 | the course row always has at least 3 cards and the notes row at least 6 |
| AdminDashboard.GetStatusBadgeClass | frontend/src/AdminDashboard.js:149-160 | always one of the four styles: the lower-cased status when it is one, else `pending` |
| AdminDashboard.StoredStatusKeepsItsStyle | frontend/src/AdminDashboard.js:149-160 | every status the back end stores is shown in its own style |
| AdminDashboard.StyleIgnoresCase | frontend/src/AdminDashboard.js:149-160 | upper-casing the status does not change the style |
| AdminDashboard.CountersSplitTheTable | frontend/src/AdminDashboard.js:599-600 | active plus inactive users, and admins plus the rest, each add up to all users |
| VideoPlayer.Tagged | frontend/src/BuiltInVideoPlayer.js:48-53 | each video of a module is tagged with its module's key, title and position |
| VideoPlayer.AllVideos | frontend/src/BuiltInVideoPlayer.js:47-54 | no module list gives an empty playlist; otherwise one entry per video |
| VideoPlayer.FlattenAt | frontend/src/BuiltInVideoPlayer.js:47-54 | video v of module m sits at position (videos before m) + v, tagged with module m |
| VideoPlayer.FlattenModuleOrder | frontend/src/BuiltInVideoPlayer.js:47-54 | entries name existing modules, in non-decreasing module order |
| VideoPlayer.FirstVideoOfFirstModule | frontend/src/BuiltInVideoPlayer.js:47-59 | there is no current video exactly when there is no video; otherwise it is the first module's first video |
| VideoPlayer.Progress | frontend/src/BuiltInVideoPlayer.js:106 | the progress sent for video i of n is (i+1)/n·100, in (0,100], and 100 exactly for the last video |
| VideoPlayer.CompletedIffFull | frontend/src/BuiltInVideoPlayer.js:106-107 | a video is marked completed exactly when its progress is 100 |
| VideoPlayer.ProgressIncreases | frontend/src/BuiltInVideoPlayer.js:106 | later videos send more progress |
| VideoPlayer.ProgressSurvivesClamp | frontend/src/BuiltInVideoPlayer.js:105-108 | the back end's clamp leaves the sent progress as it is |
| VideoPlayer.YouTubeAgreesWithProviderTag | frontend/src/BuiltInVideoPlayer.js:27-30 | an address tagged `youtube` by the back end is a YouTube address for the player |
| VideoPlayer.GetYouTubeId | frontend/src/BuiltInVideoPlayer.js:20-25 | no address gives no id; an id has 11 characters and none of `#`, `&`, `?` |
| VideoPlayer.GetYouTubeIdIsLastMatch | frontend/src/BuiltInVideoPlayer.js:20-25 | the id comes from the last marker on the address's first line that is followed by eleven id characters |
| VideoPlayer.LastStartIsLast | frontend/src/BuiltInVideoPlayer.js:20-25 | the backward search finds a matching position when it reports one, and no later position up to its start matches |
| VideoPlayer.ShortLinkId | frontend/src/BuiltInVideoPlayer.js:20-25 | a `youtu.be/` link gives the eleven characters after it |
| VideoPlayer.InitialExpanded | frontend/src/BuiltInVideoPlayer.js:62-65 | only the first module is expanded on loading, and nothing when there is no module |
| VideoPlayer.ToggleModule | frontend/src/BuiltInVideoPlayer.js:120-125 | one module's flag flips, a missing flag counting as collapsed; the others are kept |
| VideoPlayer.ToggleTwice | frontend/src/BuiltInVideoPlayer.js:120-125 | toggling a module twice restores the expanded set |
| VideoPlayer.WithoutNote | frontend/src/BuiltInVideoPlayer.js:163-170 | the notes other than the deleted one, in order |
| VideoPlayer.NotesPanel.LoadNotes | frontend/src/BuiltInVideoPlayer.js:79-91 | the shown notes are exactly the stored notes of this course, each listed once; storage is untouched |
| VideoPlayer.NotesPanel.SaveNote | frontend/src/BuiltInVideoPlayer.js:127-161 | a blank draft, or no course or video, changes nothing; otherwise a note for the current video is stored under its new id and shown first |
| VideoPlayer.NotesPanel.DeleteNote | frontend/src/BuiltInVideoPlayer.js:163-170 | the note leaves storage and the list; everything else stays, in order |
| DriveViewer.GroupFrom | frontend/src/GoogleDrivePDFViewer.js:64-72 | the group of the first match of a pattern at or after a position, absent exactly when no position matches |
| DriveViewer.FirstGroup | frontend/src/GoogleDrivePDFViewer.js:71-77 | an id is found exactly when some pattern matches, and is made of id characters |
| DriveViewer.ExtractGoogleDriveId | frontend/src/GoogleDrivePDFViewer.js:57-78 | no link gives no id; a decoding failure is an error; otherwise the group of the first matching pattern in the decoded link |
| DriveViewer.FilePathFirst | frontend/src/GoogleDrivePDFViewer.js:64-76 | a `/file/d/` link gives its id whatever other forms it contains |
| DriveViewer.BareIdIsLong | frontend/src/GoogleDrivePDFViewer.js:68 | an id found only by the bare-id pattern has at least 25 characters |
| DriveViewer.NoPatternNoId | frontend/src/GoogleDrivePDFViewer.js:71-78 | a link no pattern matches gives no id |
| DriveViewer.FilePathGivesItsId | frontend/src/GoogleDrivePDFViewer.js:65 | a bare `/file/d/` path gives the id it carries |
| DriveViewer.EmbedUrl | frontend/src/GoogleDrivePDFViewer.js:31-51 | no link gives no embed; a decoding failure shows the load error; otherwise the preview address of the extracted id |
| DriveViewer.PreviewPathRoundTrip | frontend/src/GoogleDrivePDFViewer.js:37 | a preview path reads back the id written into it |
| DriveViewer.EmbedUrlRoundTrip | frontend/src/GoogleDrivePDFViewer.js:37 | the preview address the viewer builds reads back the id it was built from |
| AddContent.SetVideoField | frontend/src/AddContent.js:83-90 | the named field takes the value and the other field keeps its text |
| AddContent.WithModuleTitle | frontend/src/AddContent.js:77-81 | only module i's title changes |
| AddContent.WithVideoField | frontend/src/AddContent.js:83-90 | only the named field of the named video changes |
| AddContent.WithVideoAdded | frontend/src/AddContent.js:99-103 | module m gains one empty video at its end; nothing else changes |
| AddContent.ModuleForm.constructor | frontend/src/AddContent.js:28 | the editor starts with one untitled module holding one empty video |
| AddContent.ModuleForm.HandleModuleChange | frontend/src/AddContent.js:77-81 | the module is retitled; every module keeps a video |
| AddContent.ModuleForm.HandleVideoChange | frontend/src/AddContent.js:83-90 | the video field is replaced; every module keeps a video |
| AddContent.ModuleForm.AddModule | frontend/src/AddContent.js:92-97 | an empty module is appended; every module keeps a video |
| AddContent.ModuleForm.AddVideo | frontend/src/AddContent.js:99-103 | an empty video is appended to the module; every module keeps a video |
| AddContent.VideoCountUpdate | frontend/src/AddContent.js:77-103 | replacing one module changes the video total by the change in its length |
| AddContent.EditsKeepVideoCount | frontend/src/AddContent.js:77-90 | editing a title or a video field keeps the number of video rows |
| AddContent.AddsOneVideo | frontend/src/AddContent.js:92-103 | adding a module or a video adds exactly one video row |
| AddContent.SubmittedVideo | frontend/src/AddContent.js:187-192 | a submitted video keeps its title and link, lasts `10:00`, and is not a preview |
| AddContent.ModulesData | frontend/src/AddContent.js:185-193 | one submitted module per draft, in order |
| AddContent.ModulesDataRoundTrip | frontend/src/AddContent.js:185-193 | every title and link the author typed is recovered from the submission, in order |
| AddContent.SubmittedModulesHaveVideos | frontend/src/AddContent.js:185-193 | an editor list where every module has a video submits modules that all have videos |
| AddContent.SubmittedPrice | frontend/src/AddContent.js:171 | `0` for a free course, else the entered price, or `0` when it is empty |
| AddContent.SubmittedPriceNeverBlank | frontend/src/AddContent.js:171 | the submitted price is never blank, and is `0` or the entered price |
| AddContent.TutorialModules | frontend/src/AddContent.js:285-293 | a tutorial submits one module, "Main Tutorial", holding its one video |
| AddContent.TutorialIsOneVideoCourse | frontend/src/AddContent.js:285-293 | a tutorial submits what the course editor would for a one-module, one-video course |
| Registration.ValidateForm | frontend/src/Registation.js:50-81 | each field gets a message exactly when its checks fail, and the first failing check's message; no message at all exactly when the form is valid |
| Registration.ValidFormPassesServerChecks | frontend/src/Registation.js:50-81 | a valid form passes the server's presence, agreement, length and non-blank-name checks |
| Registration.FormAcceptsAddressServerRefuses | frontend/src/Registation.js:58-62 | `a b@c.d` gets no message on the form but fails the server's anchored address rule |
| Registration.PaddedShortNamePasses | frontend/src/Registation.js:52-56 | the name's length is counted before trimming, so ` a` passes |
| JsString.EmailShapeAnchoring | backend/server.js:159 | the anchored address shape implies the unanchored one, and they agree on blank-free text |

## Left out

- Authentication is not modelled: JWT signing and verification, bcrypt hashing, login, and the `isAdmin` middleware. The caller is a decoded token given as a parameter, and the stored credential is a parameter.
- Database and HTTP plumbing are not modelled: Express routing, CORS, multer's disk storage and file-type filter, and MongoDB queries, population and concurrency. Collections are in-memory maps, and uploads are given records. Ids are natural numbers, so a malformed ObjectId, which `findById` rejects with a cast error that the handler's `catch` turns into its 500 reply, cannot be expressed.
- Success replies are not modelled: a handler's `Ok` carries the stored or computed value, but not the 200 or 201 code or the success message (such as `Registration successful!` or the `Course ${action}d successfully` text of moderation).
- Server.RegisterOutcome: `None` stands for a role that is absent from the request. An explicit JSON `null` role skips both the destructuring default and the schema default in JavaScript, and is not represented; the model reads it as absent, so it gives `student`.
- Routes outside the modelled handlers are not modelled: login, profile, course and notes listings, notes download, pending items, the user list and the health check.
- Mongoose schema rules are modelled only where a handler's result depends on them: the user's role, name and address; the course's title, price, instructor name, and module and video titles and links; the notes item's title, author name, page count, content type and status enumeration; the review's author name and comment length. Parsed modules are typed values, so a video that omits `duration` or `isPreview` and would take the schema defaults `10:00` and `false`, and module JSON that parses to something other than a list, cannot be expressed. Every other required field is one the handler checks for presence before the save, or an id it fills itself. The `unique` index on addresses is modelled by the handler's own lookup, since no two requests run at once here.
- ServerModel.DuplicateQueryAsWritten: a query clause on an absent id, such as `{notes: undefined}`, is taken to match the reviews that lack that field, which is how the driver treats `undefined` sent as `null`. A driver that dropped the clause would match every review of the user instead.
- Number parsing is simplified in two places. Course prices arrive already parsed, as `ServerModel.CoursePrice`'s optional real, with `None` for NaN; `parseFloat` itself is not modelled. Durations on the course page go through `JsString.NumberOrZero`, which reads plain digit runs only: `Number("1.5")`, `Number("-1")` and `Number("1e1")` count as 0 there instead of their values.
- JavaScript strings are sequences of UTF-16 code units, while a Dafny `string` holds Unicode characters. For text with characters beyond U+FFFF, the model therefore differs from the source in the `.length` checks (the registration form's `Registration.ValidateForm`, the server's password and name lengths, the review comment limit), in the first-character slice of `Navbar.GetInitials`, in the YouTube address pattern of `VideoPlayer.GetYouTubeId` (whose `.` and eleven-long `[^#&?]` class each take one code unit, so an id holding such a character is found in JavaScript but not, or differently, in the model), and in the default `sort()` order `JsArray.StrLess`.
- Case mapping is ASCII only.
- Ratings, progress and means are exact reals, not IEEE doubles.
- `JSON.parse` of stored browser data is taken to succeed. Browser storage is a value, not a shared store.
- Regular expressions are modelled one pattern at a time, with the backtracking semantics each pattern needs. There is no general regex engine.
- `decodeURIComponent` and the `URL` constructor are parameters.
- `Date.now()` and ISO date strings are the `now` parameter.
- React rendering, navigation side effects, alerts, loading flags and the fetch calls themselves are not modelled. Only the state the handlers compute is modelled.
- The registration page's clearing of a field's message on input is not modelled. The submit button's API call is not modelled either.
- The dashboard, about and login pages are context only.
- Server.Backend.UpdateCourseRating: requires at least one review of the course. The handler only calls it after storing one, so an empty list, whose mean JavaScript computes as `NaN`, cannot happen.
- Server.Backend.UpdateNotesRating: requires at least one review of the notes item, for the same reason.
- VideoPlayer.NotesPanel.LoadNotes: the stored object is modelled as a map, which drops its insertion order. In the browser the keys `courseId-now` are not array indexes, so `Object.values` lists the notes oldest first. The contract states which notes are shown, each once, but not their order.
- AddContent.ModuleForm.HandleModuleChange: the field argument is always `title` at its call sites, so only the title is modelled.
- AddContent.ModuleForm.HandleVideoChange: the draft is a value. The source's shallow copy shares video objects with the previous state, so that aliasing is not modelled. The indexes come from rendered rows and are required to be in range.

## Findings

The back-end handlers keep each behaviour below as written. The corrected member states the intended rule and proves it on the same definitions, with the intended enumeration, count or check in place of the written one.

| source | as written | input that shows it | evidently intended | confidence | as-written member | corrected member |
|---|---|---|---|---|---|---|
| backend/server.js:272-276 | the notes status enumeration lists only `published` and `draft` | a student submits notes, so the status is `pending`; or an admin rejects notes | the statuses the handlers write (`pending`, `rejected`) are storable, as for courses, so a student's notes are stored as pending whatever the role | not executed | Server.NotesSubmissionAsWritten | Server.NotesSubmissionCorrected |
| backend/server.js:1340-1341 | published courses are counted as total minus pending | one course whose status is `rejected` is reported as 1 published | count the courses whose status is `published` | not executed | ServerModel.RejectedCourseCountedAsPublished | ServerModel.PublishedCountAgreement |
| backend/server.js:1132-1138 | the duplicate-review query puts `{course: courseId}` and `{notes: notesId}` under `$or`, even when one id is absent | a user who reviewed course 1 reviews course 2, so `notesId` is undefined and matches the earlier review | refuse only a second review of the same course or notes item, which keeps one review per user and target | not executed | ServerModel.OtherCourseReview | ServerModel.AppendKeepsOneReviewPerTarget |
