/**
 * The course list page: the search-and-filter predicate over the fetched
 * courses, the category and level option lists, and the card badge.
 */
module CourseList {
  import opened Wrappers
  import opened JsString
  import opened JsArray

  /** The course fields the page reads; a missing category or level is the empty text. */
  datatype ListedCourse = ListedCourse(
    title: string,
    description: Option<string>,
    tags: Option<seq<string>>,
    category: string,
    level: string,
    isFree: bool,
    studentsEnrolled: int)

  /** `tags?.some(tag => tag.toLowerCase().includes(q))`. */
  predicate AnyTagContains(tags: seq<string>, q: string) {
    exists i :: 0 <= i < |tags| && Contains(ToLower(tags[i]), q)
  }

  /**
   * The search test shared by the course and notes lists: an empty search
   * matches; otherwise the lower-cased search must occur in the lower-cased
   * title, description or one of the tags.
   */
  predicate MatchesSearch(title: string, description: Option<string>, tags: Option<seq<string>>, search: string) {
    search == ""
    || Contains(ToLower(title), ToLower(search))
    || (description.Some? && Contains(ToLower(description.value), ToLower(search)))
    || (tags.Some? && AnyTagContains(tags.value, ToLower(search)))
  }

  /** The three filters of the page, each switched off by the empty text. */
  predicate Keep(c: ListedCourse, search: string, category: string, level: string) {
    MatchesSearch(c.title, c.description, c.tags, search)
    && (category == "" || c.category == category)
    && (level == "" || c.level == level)
  }

  /** `filteredCourses`. */
  function FilteredCourses(courses: seq<ListedCourse>, search: string, category: string, level: string): (r: seq<ListedCourse>)
    ensures forall c :: c in r <==> c in courses && Keep(c, search, category, level)
    ensures IsSubsequence(r, courses)
  {
    Filter(courses, (c: ListedCourse) => Keep(c, search, category, level))
  }

  /** With all three filters empty the whole list is shown, in order. */
  lemma NoFiltersKeepsAll(courses: seq<ListedCourse>)
    ensures FilteredCourses(courses, "", "", "") == courses
  {
  }

  /** A course in the filtered list passes each of the three tests on its own. */
  lemma FilteredCourseMatches(courses: seq<ListedCourse>, search: string, category: string, level: string, c: ListedCourse)
    requires c in FilteredCourses(courses, search, category, level)
    ensures category != "" ==> c.category == category
    ensures level != "" ==> c.level == level
    ensures search != "" ==>
      Contains(ToLower(c.title), ToLower(search))
      || (c.description.Some? && Contains(ToLower(c.description.value), ToLower(search)))
      || (c.tags.Some? && exists t :: t in c.tags.value && Contains(ToLower(t), ToLower(search)))
  {
  }

  /** Narrowing the search to a longer text never brings a course back. */
  lemma LongerSearchNarrows(courses: seq<ListedCourse>, search: string, more: string, category: string, level: string)
    requires search != ""
    ensures forall c :: c in FilteredCourses(courses, search + more, category, level) ==>
      c in FilteredCourses(courses, search, category, level)
  {
    forall c | c in FilteredCourses(courses, search + more, category, level)
      ensures Keep(c, search, category, level)
    {
      ContainsLonger(ToLower(c.title), search, more);
      if c.description.Some? {
        ContainsLonger(ToLower(c.description.value), search, more);
      }
      if c.tags.Some? && AnyTagContains(c.tags.value, ToLower(search + more)) {
        var i :| 0 <= i < |c.tags.value| && Contains(ToLower(c.tags.value[i]), ToLower(search + more));
        ContainsLonger(ToLower(c.tags.value[i]), search, more);
      }
    }
  }

  /** A text that contains the lower-cased `a + b` contains the lower-cased `a`. */
  lemma ContainsLonger(s: string, a: string, b: string)
    ensures Contains(s, ToLower(a + b)) ==> Contains(s, ToLower(a))
  {
    assert ToLower(a + b) == ToLower(a) + ToLower(b);
    if Contains(s, ToLower(a + b)) {
      var i :| 0 <= i <= |s| - |ToLower(a + b)| && OccursAt(s, ToLower(a + b), i);
      assert s[i..i + |a|] == ToLower(a + b)[..|a|] == ToLower(a);
      assert OccursAt(s, ToLower(a), i);
    }
  }

  /** The category drop-down: every non-empty category once, sorted. */
  function CategoryOptions(courses: seq<ListedCourse>): (r: seq<string>)
    ensures StrictlySorted(r) && NoDuplicates(r)
    ensures forall o :: o in r <==> o != "" && exists c :: c in courses && c.category == o
  {
    var r := FilterOptions(Map(courses, (c: ListedCourse) => c.category));
    StrictlySortedNoDuplicates(r);
    r
  }

  /** The level drop-down: every non-empty level once, sorted. */
  function LevelOptions(courses: seq<ListedCourse>): (r: seq<string>)
    ensures StrictlySorted(r) && NoDuplicates(r)
    ensures forall o :: o in r <==> o != "" && exists c :: c in courses && c.level == o
  {
    var r := FilterOptions(Map(courses, (c: ListedCourse) => c.level));
    StrictlySortedNoDuplicates(r);
    r
  }

  /** Picking any offered category keeps at least the course it came from. */
  lemma OfferedCategoryIsNonEmpty(courses: seq<ListedCourse>, o: string)
    requires o in CategoryOptions(courses)
    ensures exists c :: c in FilteredCourses(courses, "", o, "") && c.category == o
  {
    var c :| c in courses && c.category == o;
    assert Keep(c, "", o, "");
  }

  datatype Badge = Free | Popular | New

  /** The badge of a card once the enrolment count passes `threshold`. */
  function BadgeAbove(isFree: bool, studentsEnrolled: int, threshold: int): (b: Badge)
    ensures b == Free <==> isFree
    ensures b == Popular <==> !isFree && studentsEnrolled > threshold
    ensures b == New <==> !isFree && studentsEnrolled <= threshold
  {
    if isFree then Free else if studentsEnrolled > threshold then Popular else New
  }

  /** `getBadge` of the list page: popular above ten thousand students. */
  function GetBadge(c: ListedCourse): (b: Badge)
    ensures b == Free <==> c.isFree
    ensures b == Popular <==> !c.isFree && c.studentsEnrolled > 10000
    ensures b == New <==> !c.isFree && c.studentsEnrolled <= 10000
  {
    BadgeAbove(c.isFree, c.studentsEnrolled, 10000)
  }

  /** Raising the threshold can only turn a popular badge into a new one. */
  lemma BadgeThresholdMonotone(isFree: bool, students: int, low: int, high: int)
    requires low <= high
    ensures BadgeAbove(isFree, students, high) == Popular ==> BadgeAbove(isFree, students, low) == Popular
    ensures BadgeAbove(isFree, students, low) == New ==> BadgeAbove(isFree, students, high) == New
  {
  }
}
