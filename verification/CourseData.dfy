/**
 * The built-in course catalogue and its lookup helpers: by id, by category,
 * by badge, a copy of the whole list, and the list of categories.
 */
module CourseData {
  import opened Wrappers
  import opened JsString
  import opened JsArray

  /** The catalogue fields the helpers read. */
  datatype CatalogueCourse = CatalogueCourse(id: int, title: string, category: string, badge: string, level: string)

  /** The categories of the table, in order. */
  const CategoryNames: seq<string> := [
    "Web Development", "JAVA", "UI/UX Design", "Mobile Development", "AI & Machine Learning", "Business",
    "Cloud Computing", "Cybersecurity", "Programming", "Frontend Development", "Data Science", "Blockchain"]

  /** Catalogue entry number `k`, as listed in the table. */
  function Entry(k: int): (c: CatalogueCourse)
    requires 1 <= k <= 12
    ensures c.id == k
    ensures c.badge == "popular" || c.badge == "new" || c.badge == "free"
    ensures c.category == CategoryNames[k - 1]
  {
    CatalogueCourse(k, Title(k), CategoryNames[k - 1], Badge(k), Level(k))
  }

  /** The title of entry `k`. */
  function Title(k: int): (r: string)
    requires 1 <= k <= 12
  {
    if k == 1 then "Full Stack Web Development Bootcamp"
    else if k == 2 then "Java Learning A-Z"
    else if k == 3 then "Complete UI/UX Design Masterclass"
    else if k == 4 then "Flutter & Dart for Beginners"
    else if k == 5 then "Artificial Intelligence Fundamentals"
    else if k == 6 then "Digital Marketing Mastery"
    else if k == 7 then "AWS Cloud Practitioner Essentials"
    else if k == 8 then "Ethical Hacking & Cybersecurity"
    else if k == 9 then "Python Programming Masterclass"
    else if k == 10 then "React & Redux Complete Guide"
    else if k == 11 then "Data Science & Machine Learning Bootcamp"
    else "Blockchain & Cryptocurrency Fundamentals"
  }

  /** The badge of entry `k`: one of `popular`, `new` and `free`. */
  function Badge(k: int): (r: string)
    requires 1 <= k <= 12
    ensures r == "popular" || r == "new" || r == "free"
  {
    if k == 1 then "popular"
    else if k == 2 then "new"
    else if k == 3 then "popular"
    else if k == 4 then "free"
    else if k == 5 then "new"
    else if k == 6 then "popular"
    else if k == 7 then "free"
    else if k == 8 then "new"
    else if k == 9 then "popular"
    else if k == 10 then "new"
    else if k == 11 then "popular"
    else "new"
  }

  /** The level of entry `k`. */
  function Level(k: int): (r: string)
    requires 1 <= k <= 12
  {
    if k == 1 then "Beginner to Advanced"
    else if k == 2 then "Beginner"
    else if k == 3 then "All Levels"
    else if k == 4 then "Beginner"
    else if k == 5 then "Intermediate"
    else if k == 6 then "All Levels"
    else if k == 7 then "Beginner"
    else if k == 8 then "Intermediate to Advanced"
    else if k == 9 then "Beginner"
    else if k == 10 then "Intermediate"
    else if k == 11 then "Intermediate"
    else "Beginner to Intermediate"
  }

  /** The twelve catalogue entries, in table order. */
  function Table(): (t: seq<CatalogueCourse>)
    ensures |t| == 12 && forall k :: 0 <= k < 12 ==> t[k] == Entry(k + 1)
  {
    seq(12, i requires 0 <= i < 12 => Entry(i + 1))
  }

  /** The catalogue as the helpers see it. */
  const Courses: seq<CatalogueCourse> := Table()

  /** Entry `k` of the table has id `k + 1`, so ids are unique. */
  lemma CatalogueIds()
    ensures |Courses| == 12
    ensures forall k :: 0 <= k < |Courses| ==> Courses[k].id == k + 1
  {
  }

  // ---------------------------------------------------------------- by id

  /** The position of the first entry of `xs` with id `n`, or `|xs|` when there is none. */
  function IdIndex(xs: seq<CatalogueCourse>, n: int): (k: nat)
    ensures k <= |xs|
    ensures forall j :: 0 <= j < k ==> xs[j].id != n
    ensures k < |xs| ==> xs[k].id == n
  {
    IdIndexFrom(xs, n, 0)
  }

  /** The position of the first entry at or after `i` with id `n`, or `|xs|`. */
  function IdIndexFrom(xs: seq<CatalogueCourse>, n: int, i: nat): (k: nat)
    requires i <= |xs|
    ensures i <= k <= |xs|
    ensures forall j :: i <= j < k ==> xs[j].id != n
    ensures k < |xs| ==> xs[k].id == n
    decreases |xs| - i
  {
    if i == |xs| || xs[i].id == n then i else IdIndexFrom(xs, n, i + 1)
  }

  /** `find(course => course.id === n)`: the first entry with id `n`. */
  function FindById(xs: seq<CatalogueCourse>, n: int): (r: Option<CatalogueCourse>)
    ensures r.Some? <==> exists k :: 0 <= k < |xs| && xs[k].id == n
    ensures r.Some? ==> r.value in xs && r.value.id == n
    ensures r.Some? ==> r.value == xs[IdIndex(xs, n)]
  {
    if IdIndex(xs, n) < |xs| then Some(xs[IdIndex(xs, n)]) else None
  }

  /** `getCourseById`: the entry whose id is `parseInt(id)`, or nothing when the text is not a number or no id matches. */
  function GetCourseById(id: string): (r: Option<CatalogueCourse>)
    ensures ParseInt(id).None? ==> r.None?
    ensures r.Some? ==> r.value in Courses && ParseInt(id) == Some(r.value.id)
    ensures r.None? ==> forall k :: 0 <= k < |Courses| ==> ParseInt(id) != Some(Courses[k].id)
  {
    if ParseInt(id).None? then None else FindById(Courses, ParseInt(id).value)
  }

  /** The decimal text of an id from 1 to 12 finds that entry. */
  lemma LookupByDecimalId(k: nat)
    requires 1 <= k <= 12
    ensures GetCourseById(NatToString(k)) == Some(Courses[k - 1])
  {
    ParseIntOfNatToString(k);
    LookupByParsedId(NatToString(k), k);
  }

  /** Any text that parses to an id from 1 to 12 finds that entry. */
  lemma LookupByParsedId(id: string, k: nat)
    requires 1 <= k <= 12 && ParseInt(id) == Some(k)
    ensures GetCourseById(id) == Some(Courses[k - 1])
  {
    CatalogueIds();
    var i := IdIndex(Courses, k);
    assert Courses[k - 1].id == k;
    assert i == k - 1;
  }

  /** Without a radix `parseInt` also reads `0x` text, so the hexadecimal id finds the same entry. */
  lemma LookupByHexId(k: nat)
    requires 1 <= k <= 12
    ensures GetCourseById("0x" + HexText(k)) == Some(Courses[k - 1])
  {
    ParseIntOfHexText(k);
    LookupByParsedId("0x" + HexText(k), k);
  }

  // ---------------------------------------------------------------- by category and badge

  /** `getCoursesByCategory`: the entries whose category contains the argument, ignoring case, in table order. */
  function GetCoursesByCategory(category: string): (r: seq<CatalogueCourse>)
    ensures forall c :: c in r <==> c in Courses && Contains(ToLower(c.category), ToLower(category))
    ensures IsSubsequence(r, Courses)
  {
    Filter(Courses, (c: CatalogueCourse) => Contains(ToLower(c.category), ToLower(category)))
  }

  /** The empty argument matches every category. */
  lemma EmptyCategoryMatchesAll()
    ensures GetCoursesByCategory("") == Courses
  {
    forall i | 0 <= i < |Courses|
      ensures Contains(ToLower(Courses[i].category), ToLower(""))
    {
      assert OccursAt(ToLower(Courses[i].category), "", 0);
    }
  }

  function IsPopular(c: CatalogueCourse): bool { c.badge == "popular" }
  function IsNew(c: CatalogueCourse): bool { c.badge == "new" }
  function IsFree(c: CatalogueCourse): bool { c.badge == "free" }

  /** `getPopularCourses`. */
  function GetPopularCourses(): (r: seq<CatalogueCourse>)
    ensures forall c :: c in r <==> c in Courses && c.badge == "popular"
    ensures IsSubsequence(r, Courses)
  {
    Filter(Courses, IsPopular)
  }

  /** `getNewCourses`. */
  function GetNewCourses(): (r: seq<CatalogueCourse>)
    ensures forall c :: c in r <==> c in Courses && c.badge == "new"
    ensures IsSubsequence(r, Courses)
  {
    Filter(Courses, IsNew)
  }

  /** `getFreeCourses`. */
  function GetFreeCourses(): (r: seq<CatalogueCourse>)
    ensures forall c :: c in r <==> c in Courses && c.badge == "free"
    ensures IsSubsequence(r, Courses)
  {
    Filter(Courses, IsFree)
  }

  /** A list whose every badge is one of the three splits exactly into the three badge lists. */
  lemma {:induction false} BadgeListsPartition(xs: seq<CatalogueCourse>)
    requires forall i :: 0 <= i < |xs| ==> IsPopular(xs[i]) || IsNew(xs[i]) || IsFree(xs[i])
    ensures |Filter(xs, IsPopular)| + |Filter(xs, IsNew)| + |Filter(xs, IsFree)| == |xs|
  {
    if xs != [] {
      BadgeListsPartition(xs[1..]);
    }
  }

  /** Every catalogue entry is in exactly one of the popular, new and free lists. */
  lemma CatalogueBadgesPartition()
    ensures |GetPopularCourses()| + |GetNewCourses()| + |GetFreeCourses()| == |Courses|
    ensures forall c :: c in Courses ==>
      (c in GetPopularCourses() || c in GetNewCourses() || c in GetFreeCourses()) &&
      !(c in GetPopularCourses() && c in GetNewCourses()) &&
      !(c in GetPopularCourses() && c in GetFreeCourses()) &&
      !(c in GetNewCourses() && c in GetFreeCourses())
  {
    BadgeListsPartition(Courses);
  }

  // ---------------------------------------------------------------- copies and categories

  /** `getAllCourses`: a fresh array holding the table, in order. */
  method GetAllCourses() returns (a: array<CatalogueCourse>)
    ensures fresh(a)
    ensures a[..] == Courses
  {
    a := new CatalogueCourse[|Courses|](i requires 0 <= i < |Courses| => Courses[i]);
  }

  /** The category of every entry, in table order. */
  function CategoryColumn(xs: seq<CatalogueCourse>): (r: seq<string>)
    ensures |r| == |xs| && forall i :: 0 <= i < |xs| ==> r[i] == xs[i].category
  {
    seq(|xs|, i requires 0 <= i < |xs| => xs[i].category)
  }

  /** A category is in the column exactly when some entry has it. */
  lemma ColumnMembers(xs: seq<CatalogueCourse>)
    ensures forall c :: c in CategoryColumn(xs) <==> exists i :: 0 <= i < |xs| && xs[i].category == c
    ensures forall c :: c in Distinct(CategoryColumn(xs)) <==> exists i :: 0 <= i < |xs| && xs[i].category == c
  {
    var column := CategoryColumn(xs);
    forall c | c in column
      ensures exists i :: 0 <= i < |xs| && xs[i].category == c
    {
      var i :| 0 <= i < |column| && column[i] == c;
    }
  }

  /** `getCategories`: each category once, in order of first appearance. */
  function GetCategories(): (r: seq<string>)
    ensures forall c :: c in r <==> exists i :: 0 <= i < |Courses| && Courses[i].category == c
    ensures NoDuplicates(r)
  {
    var column := CategoryColumn(Courses);
    ColumnMembers(Courses);
    Distinct(column)
  }

  /** The order of `getCategories` is the order of first appearance in the table. */
  lemma CategoriesInFirstAppearanceOrder()
    ensures forall i, j :: 0 <= i < j < |GetCategories()| ==>
      FirstIndex(CategoryColumn(Courses), GetCategories()[i]) < FirstIndex(CategoryColumn(Courses), GetCategories()[j])
  {
    DistinctFirstOccurrenceOrder(CategoryColumn(Courses));
  }

  /** The twelve entries have twelve different categories, so the list is the category column itself. */
  lemma CategoriesOfCatalogue()
    ensures GetCategories() == CategoryColumn(Courses)
    ensures |GetCategories()| == 12
  {
    var column := CategoryColumn(Courses);
    assert column == CategoryNames;
    CategoryNamesDistinct();
    DistinctOfNoDuplicates(column);
  }

  /** No category is listed twice. */
  lemma CategoryNamesDistinct()
    ensures NoDuplicates(CategoryNames)
  {
  }
}
