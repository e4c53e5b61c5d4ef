/**
 * The module editor of the content submission page and the module list it
 * submits: the editor keeps a list of draft modules, each with its draft
 * videos, that the author edits field by field and extends one module or
 * one video at a time; on submission every draft becomes a course module
 * whose videos last ten minutes and are not previews. A tutorial is
 * submitted as a course with a single module holding its one video.
 */
module AddContent {
  import ServerModel
  import CourseDetail
  import opened Wrappers

  datatype DraftVideo = DraftVideo(title: string, url: string)

  datatype DraftModule = DraftModule(title: string, videos: seq<DraftVideo>)

  /** The two inputs of a video row. */
  datatype VideoField = TitleField | UrlField

  const EmptyVideo: DraftVideo := DraftVideo("", "")

  /** What `addModule` appends and what the editor starts with: an untitled module with one empty video. */
  const EmptyModule: DraftModule := DraftModule("", [EmptyVideo])

  /** Every module has a video row to edit, and there is a module. */
  predicate EveryModuleHasAVideo(ms: seq<DraftModule>) {
    ms != [] && forall i :: 0 <= i < |ms| ==> ms[i].videos != []
  }

  /** The number of video rows over all modules. */
  function VideoCount(ms: seq<DraftModule>): nat {
    if ms == [] then 0 else VideoCount(ms[..|ms| - 1]) + |ms[|ms| - 1].videos|
  }

  /** `{ ...v, [field]: value }`: the named field takes `value`, the other keeps its text. */
  function SetVideoField(v: DraftVideo, field: VideoField, value: string): (r: DraftVideo)
    ensures field == TitleField ==> r.title == value && r.url == v.url
    ensures field == UrlField ==> r.url == value && r.title == v.title
  {
    match field
    case TitleField => v.(title := value)
    case UrlField => v.(url := value)
  }

  /** The module list with module `i` retitled. */
  function WithModuleTitle(ms: seq<DraftModule>, i: nat, value: string): (r: seq<DraftModule>)
    requires i < |ms|
    ensures |r| == |ms|
    ensures r[i].title == value && r[i].videos == ms[i].videos
    ensures forall j :: 0 <= j < |ms| && j != i ==> r[j] == ms[j]
  {
    ms[i := ms[i].(title := value)]
  }

  /** The module list with one field of video `v` of module `m` replaced. */
  function WithVideoField(ms: seq<DraftModule>, m: nat, v: nat, field: VideoField, value: string): (r: seq<DraftModule>)
    requires m < |ms| && v < |ms[m].videos|
    ensures |r| == |ms| && r[m].title == ms[m].title && |r[m].videos| == |ms[m].videos|
    ensures r[m].videos[v] == SetVideoField(ms[m].videos[v], field, value)
    ensures forall k :: 0 <= k < |ms[m].videos| && k != v ==> r[m].videos[k] == ms[m].videos[k]
    ensures forall j :: 0 <= j < |ms| && j != m ==> r[j] == ms[j]
  {
    var videos := ms[m].videos[v := SetVideoField(ms[m].videos[v], field, value)];
    ms[m := ms[m].(videos := videos)]
  }

  /** The module list with an empty video appended to module `m`. */
  function WithVideoAdded(ms: seq<DraftModule>, m: nat): (r: seq<DraftModule>)
    requires m < |ms|
    ensures |r| == |ms| && r[m].title == ms[m].title
    ensures |r[m].videos| == |ms[m].videos| + 1 && r[m].videos[|ms[m].videos|] == EmptyVideo
    ensures r[m].videos[..|ms[m].videos|] == ms[m].videos
    ensures forall j :: 0 <= j < |ms| && j != m ==> r[j] == ms[j]
  {
    var videos := ms[m].videos + [EmptyVideo];
    assert videos[..|ms[m].videos|] == ms[m].videos;
    ms[m := ms[m].(videos := videos)]
  }

  /** The module editor's state. */
  class ModuleForm {
    var modules: seq<DraftModule>

    predicate Valid()
      reads this
    {
      EveryModuleHasAVideo(modules)
    }

    /** The initial form and the form after a reset: one empty module. */
    constructor ()
      ensures modules == [EmptyModule]
      ensures Valid()
    {
      modules := [EmptyModule];
    }

    /** `handleModuleChange(index, 'title', value)`. */
    method HandleModuleChange(index: nat, value: string)
      requires index < |modules|
      modifies this
      ensures modules == WithModuleTitle(old(modules), index, value)
      ensures old(Valid()) ==> Valid()
    {
      var updated := modules;
      updated := updated[index := DraftModule(value, updated[index].videos)];
      modules := updated;
    }

    /** `handleVideoChange(moduleIndex, videoIndex, field, value)`. */
    method HandleVideoChange(moduleIndex: nat, videoIndex: nat, field: VideoField, value: string)
      requires moduleIndex < |modules| && videoIndex < |modules[moduleIndex].videos|
      modifies this
      ensures modules == WithVideoField(old(modules), moduleIndex, videoIndex, field, value)
      ensures old(Valid()) ==> Valid()
    {
      var updated := modules;
      var videos := updated[moduleIndex].videos;
      videos := videos[videoIndex := SetVideoField(videos[videoIndex], field, value)];
      updated := updated[moduleIndex := updated[moduleIndex].(videos := videos)];
      modules := updated;
    }

    /** `addModule`. */
    method AddModule()
      modifies this
      ensures modules == old(modules) + [EmptyModule]
      ensures old(Valid()) ==> Valid()
    {
      modules := modules + [EmptyModule];
    }

    /** `addVideo(moduleIndex)`. */
    method AddVideo(moduleIndex: nat)
      requires moduleIndex < |modules|
      modifies this
      ensures modules == WithVideoAdded(old(modules), moduleIndex)
      ensures old(Valid()) ==> Valid()
    {
      var updated := modules;
      updated := updated[moduleIndex := updated[moduleIndex].(videos := updated[moduleIndex].videos + [EmptyVideo])];
      modules := updated;
    }
  }

  /** The total over a list whose one entry `i` changed length. */
  lemma {:induction false} VideoCountUpdate(ms: seq<DraftModule>, i: nat, d: DraftModule)
    requires i < |ms|
    ensures VideoCount(ms[i := d]) == VideoCount(ms) - |ms[i].videos| + |d.videos|
  {
    var n := |ms| - 1;
    if i < n {
      assert ms[i := d][..n] == ms[..n][i := d];
      VideoCountUpdate(ms[..n], i, d);
    } else {
      assert ms[i := d][..n] == ms[..n];
    }
  }

  /** Editing a title or a video field never adds or removes a video row. */
  lemma EditsKeepVideoCount(ms: seq<DraftModule>, m: nat, v: nat, field: VideoField, value: string)
    requires m < |ms| && v < |ms[m].videos|
    ensures VideoCount(WithModuleTitle(ms, m, value)) == VideoCount(ms)
    ensures VideoCount(WithVideoField(ms, m, v, field, value)) == VideoCount(ms)
  {
    VideoCountUpdate(ms, m, WithModuleTitle(ms, m, value)[m]);
    assert WithModuleTitle(ms, m, value) == ms[m := WithModuleTitle(ms, m, value)[m]];
    VideoCountUpdate(ms, m, WithVideoField(ms, m, v, field, value)[m]);
    assert WithVideoField(ms, m, v, field, value) == ms[m := WithVideoField(ms, m, v, field, value)[m]];
  }

  /** Adding a module or a video adds exactly one video row. */
  lemma AddsOneVideo(ms: seq<DraftModule>, m: nat)
    requires m < |ms|
    ensures VideoCount(ms + [EmptyModule]) == VideoCount(ms) + 1
    ensures VideoCount(WithVideoAdded(ms, m)) == VideoCount(ms) + 1
  {
    assert (ms + [EmptyModule])[..|ms|] == ms;
    VideoCountUpdate(ms, m, WithVideoAdded(ms, m)[m]);
    assert WithVideoAdded(ms, m) == ms[m := WithVideoAdded(ms, m)[m]];
  }

  /** The submitted form of one video: ten minutes long, not a preview. */
  function SubmittedVideo(v: DraftVideo): (r: ServerModel.Video)
    ensures r.title == v.title && r.url == v.url
    ensures r.duration == "10:00" && !r.isPreview
  {
    ServerModel.Video(v.title, v.url, "10:00", false)
  }

  function SubmittedModule(m: DraftModule): (r: ServerModel.Module)
    ensures r.title == m.title && |r.videos| == |m.videos|
    ensures forall k :: 0 <= k < |m.videos| ==> r.videos[k] == SubmittedVideo(m.videos[k])
  {
    ServerModel.Module(m.title, seq(|m.videos|, k requires 0 <= k < |m.videos| => SubmittedVideo(m.videos[k])))
  }

  /** What the course page sees of a list of submitted videos: their duration texts. */
  function SubmittedLessons(vs: seq<DraftVideo>): (r: seq<CourseDetail.Lesson>)
    ensures |r| == |vs|
    ensures forall k :: 0 <= k < |vs| ==> r[k].duration == Some(SubmittedVideo(vs[k]).duration)
  {
    seq(|vs|, k requires 0 <= k < |vs| => CourseDetail.Lesson(Some(SubmittedVideo(vs[k]).duration)))
  }

  /**
   * Each submitted video is meant to last ten minutes, but the course page
   * reads its `10:00` as hours and minutes: submitted videos add up to ten
   * hours each.
   */
  lemma {:induction false} SubmittedVideosTotal(vs: seq<DraftVideo>)
    ensures CourseDetail.TotalMinutes(SubmittedLessons(vs)) == 600 * |vs|
  {
    if vs != [] {
      var init := vs[..|vs| - 1];
      SubmittedVideosTotal(init);
      assert SubmittedLessons(vs)[..|vs| - 1] == SubmittedLessons(init);
      CourseDetail.FormDefaultDurationReadsAsTenHours(SubmittedVideo(vs[|vs| - 1]).duration);
    }
  }

  /** `modulesData`: the draft modules as the course submission carries them. */
  function ModulesData(ms: seq<DraftModule>): (r: seq<ServerModel.Module>)
    ensures |r| == |ms|
    ensures forall i :: 0 <= i < |ms| ==> r[i] == SubmittedModule(ms[i])
  {
    seq(|ms|, i requires 0 <= i < |ms| => SubmittedModule(ms[i]))
  }

  /** What the editor would show for a submitted module: its title and its videos' titles and links. */
  function Drafted(m: ServerModel.Module): (d: DraftModule)
    ensures d.title == m.title && |d.videos| == |m.videos|
    ensures forall k :: 0 <= k < |m.videos| ==> d.videos[k] == DraftVideo(m.videos[k].title, m.videos[k].url)
  {
    DraftModule(m.title, seq(|m.videos|, k requires 0 <= k < |m.videos| => DraftVideo(m.videos[k].title, m.videos[k].url)))
  }

  /** Submission loses nothing the author typed: every title and link is recovered, in order. */
  lemma ModulesDataRoundTrip(ms: seq<DraftModule>)
    ensures |ModulesData(ms)| == |ms|
    ensures forall i :: 0 <= i < |ms| ==> Drafted(ModulesData(ms)[i]) == ms[i]
  {
    forall i | 0 <= i < |ms|
      ensures Drafted(ModulesData(ms)[i]) == ms[i]
    {
      var d := Drafted(ModulesData(ms)[i]);
      assert d.videos == ms[i].videos;
    }
  }

  /** A list that keeps a video in every module submits a course whose every module has a video. */
  lemma SubmittedModulesHaveVideos(ms: seq<DraftModule>)
    requires EveryModuleHasAVideo(ms)
    ensures ModulesData(ms) != []
    ensures forall i :: 0 <= i < |ms| ==> ModulesData(ms)[i].videos != []
  {
  }

  /** The price field of a course submission: `'0'` for a free course, else the entered price or `'0'`. */
  function SubmittedPrice(isFree: bool, price: string): (r: string)
    ensures isFree ==> r == "0"
    ensures !isFree && price != "" ==> r == price
    ensures !isFree && price == "" ==> r == "0"
  {
    if isFree then "0" else if price != "" then price else "0"
  }

  /** The submitted price is never blank. */
  lemma SubmittedPriceNeverBlank(isFree: bool, price: string)
    ensures SubmittedPrice(isFree, price) != ""
    ensures SubmittedPrice(isFree, price) == "0" || SubmittedPrice(isFree, price) == price
  {
  }

  /** A tutorial's modules: one module, "Main Tutorial", whose one video is the tutorial itself. */
  function TutorialModules(title: string, youtubeLink: string): (r: seq<ServerModel.Module>)
    ensures |r| == 1 && r[0].title == "Main Tutorial" && |r[0].videos| == 1
    ensures r[0].videos[0] == ServerModel.Video(title, youtubeLink, "10:00", false)
  {
    [ServerModel.Module("Main Tutorial", [ServerModel.Video(title, youtubeLink, "10:00", false)])]
  }

  /** A tutorial submits what the course editor would for a one-module, one-video course. */
  lemma TutorialIsOneVideoCourse(title: string, youtubeLink: string)
    ensures TutorialModules(title, youtubeLink) ==
      ModulesData([DraftModule("Main Tutorial", [DraftVideo(title, youtubeLink)])])
  {
    var ms := [DraftModule("Main Tutorial", [DraftVideo(title, youtubeLink)])];
    assert SubmittedModule(ms[0]).videos == [SubmittedVideo(ms[0].videos[0])];
  }
}
