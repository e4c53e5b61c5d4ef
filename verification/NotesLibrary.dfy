/**
 * The notes library page: the search-and-category filter, the category
 * drop-down, and the two figures of the header, total downloads and the
 * number of contributors.
 */
module NotesLibrary {
  import opened Wrappers
  import opened JsString
  import opened JsArray
  import CourseList

  /**
   * The notes fields the page reads. `authorId` is the populated author's
   * id, absent when the author could not be populated.
   */
  datatype ListedNotes = ListedNotes(
    title: string,
    description: Option<string>,
    tags: Option<seq<string>>,
    category: string,
    downloads: Option<int>,
    authorId: Option<string>,
    authorName: Option<string>)

  /** The search test of the course list, with the category filter. */
  predicate Keep(n: ListedNotes, search: string, category: string) {
    CourseList.MatchesSearch(n.title, n.description, n.tags, search)
    && (category == "" || n.category == category)
  }

  /** `filteredNotes`. */
  function FilteredNotes(notes: seq<ListedNotes>, search: string, category: string): (r: seq<ListedNotes>)
    ensures forall n :: n in r <==> n in notes && Keep(n, search, category)
    ensures IsSubsequence(r, notes)
  {
    Filter(notes, (n: ListedNotes) => Keep(n, search, category))
  }

  /** With no search and no category every note is shown, in order. */
  lemma NoFiltersKeepsAll(notes: seq<ListedNotes>)
    ensures FilteredNotes(notes, "", "") == notes
  {
  }

  /** The category drop-down: every non-empty category once, sorted. */
  function CategoryOptions(notes: seq<ListedNotes>): (r: seq<string>)
    ensures StrictlySorted(r) && NoDuplicates(r)
    ensures forall o :: o in r <==> o != "" && exists n :: n in notes && n.category == o
  {
    var r := FilterOptions(Map(notes, (n: ListedNotes) => n.category));
    StrictlySortedNoDuplicates(r);
    r
  }

  /** `note.downloads || 0`. */
  function DownloadsOf(n: ListedNotes): int {
    if n.downloads.Some? then n.downloads.value else 0
  }

  /** `totalDownloads`: the running sum, first note first. */
  function TotalDownloads(notes: seq<ListedNotes>): int {
    if notes == [] then 0 else TotalDownloads(notes[..|notes| - 1]) + DownloadsOf(notes[|notes| - 1])
  }

  /** The total over two lists is the sum of their totals. */
  lemma {:induction false} TotalDownloadsAppend(a: seq<ListedNotes>, b: seq<ListedNotes>)
    ensures TotalDownloads(a + b) == TotalDownloads(a) + TotalDownloads(b)
  {
    if b != [] {
      assert (a + b)[..|a + b| - 1] == a + b[..|b| - 1];
      TotalDownloadsAppend(a, b[..|b| - 1]);
    } else {
      assert a + b == a;
    }
  }

  /** Counters are never negative, so neither is the total, and it is at least each note's count. */
  lemma {:induction false} TotalDownloadsBounds(notes: seq<ListedNotes>)
    requires forall i :: 0 <= i < |notes| ==> DownloadsOf(notes[i]) >= 0
    ensures TotalDownloads(notes) >= 0
    ensures forall i :: 0 <= i < |notes| ==> DownloadsOf(notes[i]) <= TotalDownloads(notes)
  {
    if notes != [] {
      TotalDownloadsBounds(notes[..|notes| - 1]);
    }
  }

  /** A note with no counter adds nothing. */
  lemma MissingCounterAddsNothing(notes: seq<ListedNotes>, n: ListedNotes)
    requires n.downloads.None?
    ensures TotalDownloads(notes + [n]) == TotalDownloads(notes)
  {
    assert (notes + [n])[..|notes|] == notes;
  }

  /** `note.author?._id || note.authorName`. */
  function ContributorKey(n: ListedNotes): Option<string> {
    if Truthy(n.authorId) then n.authorId else n.authorName
  }

  function ContributorKeys(notes: seq<ListedNotes>): (r: seq<Option<string>>)
    ensures |r| == |notes| && forall i :: 0 <= i < |notes| ==> r[i] == ContributorKey(notes[i])
  {
    seq(|notes|, i requires 0 <= i < |notes| => ContributorKey(notes[i]))
  }

  /**
   * `totalContributors`: the number of different contributor keys, at most
   * the number of notes and at least one when there is a note.
   */
  function TotalContributors(notes: seq<ListedNotes>): (k: nat)
    ensures k <= |notes|
    ensures notes != [] ==> k >= 1
    ensures k == |Distinct(ContributorKeys(notes))|
  {
    var keys := Distinct(ContributorKeys(notes));
    assert notes != [] ==> ContributorKeys(notes)[0] in keys;
    |keys|
  }

  /** Notes by one author count one contributor. */
  lemma OneAuthorOneContributor(notes: seq<ListedNotes>, id: string)
    requires notes != [] && id != ""
    requires forall i :: 0 <= i < |notes| ==> notes[i].authorId == Some(id)
    ensures TotalContributors(notes) == 1
  {
    DistinctOfConstant(ContributorKeys(notes), Some(id));
  }

  /** Notes whose authors are all different count one contributor each. */
  lemma DistinctAuthorsEachCount(notes: seq<ListedNotes>)
    requires forall i :: 0 <= i < |notes| ==> Truthy(notes[i].authorId)
    requires forall i, j :: 0 <= i < j < |notes| ==> notes[i].authorId != notes[j].authorId
    ensures TotalContributors(notes) == |notes|
  {
    var keys := ContributorKeys(notes);
    assert forall i :: 0 <= i < |notes| ==> keys[i] == notes[i].authorId;
    DistinctOfNoDuplicates(keys);
  }
}
