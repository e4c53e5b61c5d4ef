/**
 * The home page: thumbnail addresses, the course badge, and the placeholder
 * cards that fill the course and notes rows up to three and six cards.
 */
module Home {
  import opened Wrappers
  import opened JsString
  import CourseList

  /** The picture shown when a course has no thumbnail. */
  const DefaultCourseImage: string := "https://" + "images.unsplash.com/photo-1555066931-4365d14bab8c?w=600&auto=format&fit=crop"

  /** The picture shown when a note has no thumbnail. */
  const DefaultNotesImage: string := "https://" + "images.unsplash.com/photo-1501504905252-473c47e087f8?w=400&auto=format&fit=crop"

  /** The address the back end serves uploaded files from. */
  const ServerOrigin: string := "http://localhost:5000"

  /**
   * `getImageUrl`: the default picture for a missing or empty address, an
   * address starting with `http` as it is, and anything else as a path on
   * the back end.
   */
  function GetImageUrl(url: Option<string>): (r: string)
    ensures !Truthy(url) ==> r == DefaultCourseImage
    ensures Truthy(url) && StartsWith(url.value, "http") ==> r == url.value
    ensures Truthy(url) && !StartsWith(url.value, "http") ==> r == ServerOrigin + url.value
    ensures StartsWith(r, "http")
  {
    if !Truthy(url) then
      assert DefaultCourseImage[..4] == "http";
      DefaultCourseImage
    else if StartsWith(url.value, "http") then url.value
    else
      assert (ServerOrigin + url.value)[..4] == "http";
      ServerOrigin + url.value
  }

  /** Resolving an already resolved address changes nothing. */
  lemma GetImageUrlIdempotent(url: Option<string>)
    ensures GetImageUrl(Some(GetImageUrl(url))) == GetImageUrl(url)
  {
  }

  /** A stored upload path `/uploads/name` resolves to the back end's file address. */
  lemma UploadPathResolves(filename: string)
    ensures GetImageUrl(Some("/uploads/" + filename)) == "http://localhost:5000/uploads/" + filename
  {
    assert ("/uploads/" + filename)[0] == '/';
    assert !StartsWith("/uploads/" + filename, "http");
  }

  /** A note card's picture: its resolved thumbnail, or the notes default. */
  function NotesImage(thumbnail: Option<string>): (r: string)
    ensures !Truthy(thumbnail) ==> r == DefaultNotesImage
    ensures Truthy(thumbnail) ==> r == GetImageUrl(thumbnail)
    ensures StartsWith(r, "http")
  {
    if Truthy(thumbnail) then GetImageUrl(thumbnail)
    else
      assert DefaultNotesImage[..4] == "http";
      DefaultNotesImage
  }

  /** `getCourseBadge`: popular above five thousand students. */
  function GetCourseBadge(isFree: bool, studentsEnrolled: int): (b: CourseList.Badge)
    ensures b == CourseList.Free <==> isFree
    ensures b == CourseList.Popular <==> !isFree && studentsEnrolled > 5000
    ensures b == CourseList.New <==> !isFree && studentsEnrolled <= 5000
  {
    CourseList.BadgeAbove(isFree, studentsEnrolled, 5000)
  }

  /**
   * The home page and the list page badge a course the same way except for
   * paid courses with more than five and at most ten thousand students,
   * which are popular here and new on the list.
   */
  lemma BadgesDisagreeOnlyBetweenThresholds(c: CourseList.ListedCourse)
    ensures GetCourseBadge(c.isFree, c.studentsEnrolled) != CourseList.GetBadge(c) <==>
      !c.isFree && 5000 < c.studentsEnrolled <= 10000
    ensures !c.isFree && 5000 < c.studentsEnrolled <= 10000 ==>
      GetCourseBadge(c.isFree, c.studentsEnrolled) == CourseList.Popular && CourseList.GetBadge(c) == CourseList.New
  {
    CourseList.BadgeThresholdMonotone(c.isFree, c.studentsEnrolled, 5000, 10000);
  }

  /** `[...Array(cap - n)]` when `n < cap`: the number of placeholder cards. */
  function Placeholders(n: nat, cap: nat): (k: nat)
    ensures n < cap ==> n + k == cap
    ensures n >= cap ==> k == 0
  {
    if n < cap then cap - n else 0
  }

  /** Cards in the course row: the fetched courses, then the placeholders. */
  function CourseCards(courses: nat): nat {
    courses + Placeholders(courses, 3)
  }

  /** Cards in the notes row: the fetched notes, then the placeholders. */
  function NotesCards(notes: nat): nat {
    notes + Placeholders(notes, 6)
  }

  /**
   * The rows always hold at least three and six cards; asking the back end
   * for at most three courses and six notes makes that exactly three and six.
   */
  lemma RowsAreFilled(courses: nat, notes: nat)
    ensures CourseCards(courses) == if courses <= 3 then 3 else courses
    ensures NotesCards(notes) == if notes <= 6 then 6 else notes
    ensures courses <= 3 && notes <= 6 ==> CourseCards(courses) == 3 && NotesCards(notes) == 6
  {
  }
}
