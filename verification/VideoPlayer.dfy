/**
 * The built-in video player: the playlist flattened across modules, the
 * progress sent when a video is picked, the YouTube address tests, the
 * expanded-module toggles, and the personal notes kept in local storage.
 */
module VideoPlayer {
  import opened Wrappers
  import opened JsString
  import opened JsArray
  import ServerModel

  datatype PlayerVideo = PlayerVideo(title: string, url: string)

  datatype PlayerModule = PlayerModule(id: Option<string>, title: string, videos: seq<PlayerVideo>)

  /** `module._id || moduleIndex`: the key of a module in the playlist and in the expanded set. */
  datatype ModuleKey = KeyId(id: string) | KeyIndex(index: nat)

  /** A playlist entry: the video with the key, title and position of its module. */
  datatype FlatVideo = FlatVideo(video: PlayerVideo, moduleKey: ModuleKey, moduleName: string, moduleIndex: nat)

  function KeyOf(m: PlayerModule, index: nat): ModuleKey {
    if Truthy(m.id) then KeyId(m.id.value) else KeyIndex(index)
  }

  // ---------------------------------------------------------------- playlist

  /** The videos of module number `index`, each tagged with its module. */
  function Tagged(m: PlayerModule, index: nat): (r: seq<FlatVideo>)
    ensures |r| == |m.videos|
    ensures forall v :: 0 <= v < |r| ==> r[v] == FlatVideo(m.videos[v], KeyOf(m, index), m.title, index)
  {
    seq(|m.videos|, v requires 0 <= v < |m.videos| => FlatVideo(m.videos[v], KeyOf(m, index), m.title, index))
  }

  /** The number of videos over all modules. */
  function VideoCount(ms: seq<PlayerModule>): nat {
    if ms == [] then 0 else VideoCount(ms[..|ms| - 1]) + |ms[|ms| - 1].videos|
  }

  /** The `flatMap` over the modules, first module first. */
  function Flatten(ms: seq<PlayerModule>): (r: seq<FlatVideo>)
    ensures |r| == VideoCount(ms)
  {
    if ms == [] then [] else Flatten(ms[..|ms| - 1]) + Tagged(ms[|ms| - 1], |ms| - 1)
  }

  /** `allVideos`: the flattened playlist, empty when the course has no module list. */
  function AllVideos(modules: Option<seq<PlayerModule>>): (r: seq<FlatVideo>)
    ensures modules.None? ==> r == []
    ensures modules.Some? ==> |r| == VideoCount(modules.value)
  {
    if modules.None? then [] else Flatten(modules.value)
  }

  /**
   * Video `v` of module `m` sits at position `VideoCount(ms[..m]) + v` of the
   * playlist, carrying module `m`'s key, title and index.
   */
  lemma {:induction false} FlattenAt(ms: seq<PlayerModule>, m: nat, v: nat)
    requires m < |ms| && v < |ms[m].videos|
    ensures VideoCount(ms[..m]) + v < |Flatten(ms)|
    ensures Flatten(ms)[VideoCount(ms[..m]) + v] == FlatVideo(ms[m].videos[v], KeyOf(ms[m], m), ms[m].title, m)
  {
    var n := |ms| - 1;
    if m == n {
      assert ms[..n] == ms[..m];
    } else {
      assert ms[..n][..m] == ms[..m];
      assert ms[..n][m] == ms[m];
      FlattenAt(ms[..n], m, v);
    }
  }

  /** Playlist entries name existing modules, in non-decreasing module order. */
  lemma {:induction false} FlattenModuleOrder(ms: seq<PlayerModule>)
    ensures forall i :: 0 <= i < |Flatten(ms)| ==> Flatten(ms)[i].moduleIndex < |ms|
    ensures forall i, j :: 0 <= i < j < |Flatten(ms)| ==> Flatten(ms)[i].moduleIndex <= Flatten(ms)[j].moduleIndex
  {
    if ms != [] {
      var n := |ms| - 1;
      var init: seq<FlatVideo>, last: seq<FlatVideo> := Flatten(ms[..n]), Tagged(ms[n], n);
      FlattenModuleOrder(ms[..n]);
      assert Flatten(ms) == init + last;
      forall i | 0 <= i < |init + last|
        ensures (init + last)[i].moduleIndex == if i < |init| then init[i].moduleIndex else n
      {
      }
    }
  }

  /** `currentVideo` on loading: the first playlist entry, if any. */
  function FirstVideo(all: seq<FlatVideo>): Option<FlatVideo> {
    if all == [] then None else Some(all[0])
  }

  /**
   * The video shown first is the first video of the first module when that
   * module has one; there is none exactly when no module has a video.
   */
  lemma FirstVideoOfFirstModule(ms: seq<PlayerModule>)
    ensures FirstVideo(AllVideos(Some(ms))).None? <==> VideoCount(ms) == 0
    ensures ms != [] && ms[0].videos != [] ==>
      FirstVideo(AllVideos(Some(ms))) == Some(FlatVideo(ms[0].videos[0], KeyOf(ms[0], 0), ms[0].title, 0))
  {
    if ms != [] && ms[0].videos != [] {
      FlattenAt(ms, 0, 0);
      assert ms[..0] == [];
    }
  }

  // ---------------------------------------------------------------- progress

  /** `Math.min(100, (i + 1) / n * 100)`: the progress sent when video `i` of `n` is picked. */
  function Progress(i: nat, n: nat): (p: real)
    requires i < n
    ensures 0.0 < p <= 100.0
    ensures p == 100.0 <==> i == n - 1
    ensures p == (i + 1) as real * 100.0 / n as real
  {
    var x := (i + 1) as real / n as real * 100.0;
    assert (i + 1) as real <= n as real;
    assert x <= 100.0;
    assert x == 100.0 <==> i + 1 == n;
    if x < 100.0 then x else 100.0
  }

  /** `globalIndex === allVideos.length - 1`. */
  predicate Completed(i: nat, n: nat) {
    i == n - 1
  }

  /** A video is the last one exactly when its progress is full. */
  lemma CompletedIffFull(i: nat, n: nat)
    requires i < n
    ensures Completed(i, n) <==> Progress(i, n) == 100.0
  {
  }

  /** Later videos send more progress. */
  lemma ProgressIncreases(i: nat, j: nat, n: nat)
    requires i < j < n
    ensures Progress(i, n) < Progress(j, n)
  {
    QuotientLess((i + 1) as real * 100.0, (j + 1) as real * 100.0, n as real);
  }

  /** Dividing by a positive number keeps a strict order. */
  lemma QuotientLess(a: real, b: real, m: real)
    requires m > 0.0 && a < b
    ensures a / m < b / m
  {
    var d := b / m - a / m;
    assert d * m == b - a;
    PositiveFactor(d, m);
  }

  /** A positive product with a positive factor has a positive other factor. */
  lemma PositiveFactor(d: real, m: real)
    requires m > 0.0 && d * m > 0.0
    ensures d > 0.0
  {
  }

  /** The back end stores the progress as it is sent: it already lies within its clamp. */
  lemma ProgressSurvivesClamp(i: nat, n: nat)
    requires i < n
    ensures ServerModel.ClampProgress(Progress(i, n)) == Progress(i, n)
  {
  }

  // ---------------------------------------------------------------- YouTube addresses

  /** `isYouTubeUrl`. */
  predicate IsYouTubeUrl(url: Option<string>) {
    Truthy(url) && (Contains(url.value, "youtube.com") || Contains(url.value, "youtu.be"))
  }

  /**
   * A link the back end tags `youtube` is a YouTube address for the player;
   * a YouTube address that names no earlier provider is tagged `youtube`.
   */
  lemma YouTubeAgreesWithProviderTag(url: string)
    ensures ServerModel.DetectUrlType(url) == "youtube" ==> IsYouTubeUrl(Some(url))
    ensures IsYouTubeUrl(Some(url)) && !Contains(url, "drive.google.com") && !Contains(url, "onedrive.live.com")
      && !Contains(url, "sharepoint.com") && !Contains(url, "dropbox.com") && !Contains(url, "github.com")
      ==> ServerModel.DetectUrlType(url) == "youtube"
  {
  }

  /** The characters `.` does not match. */
  predicate IsLineTerminator(c: char) {
    c == '\n' || c == '\r' || c == '\U{2028}' || c == '\U{2029}'
  }

  /** `\w`. */
  predicate IsWordChar(c: char) {
    ('a' <= c <= 'z') || ('A' <= c <= 'Z') || ('0' <= c <= '9') || c == '_'
  }

  /** `[^#&?]`. */
  predicate IsIdChar(c: char) {
    c != '#' && c != '&' && c != '?'
  }

  /**
   * The length of alternative `alt` of `(youtu.be\/|v\/|u\/\w\/|embed\/|watch\?v=|&v=)`
   * when it matches at `p`.
   */
  function MarkerLength(s: string, p: nat, alt: nat): (r: Option<nat>)
    ensures r.Some? ==> p + r.value <= |s|
  {
    if alt == 0 then
      if p + 9 <= |s| && s[p..p + 5] == "youtu" && !IsLineTerminator(s[p + 5]) && s[p + 6..p + 9] == "be/" then Some(9) else None
    else if alt == 1 then
      if p + 2 <= |s| && s[p..p + 2] == "v/" then Some(2) else None
    else if alt == 2 then
      if p + 4 <= |s| && s[p..p + 2] == "u/" && IsWordChar(s[p + 2]) && s[p + 3] == '/' then Some(4) else None
    else if alt == 3 then
      if p + 6 <= |s| && s[p..p + 6] == "embed/" then Some(6) else None
    else if alt == 4 then
      if p + 8 <= |s| && s[p..p + 8] == "watch?v=" then Some(8) else None
    else if alt == 5 then
      if p + 3 <= |s| && s[p..p + 3] == "&v=" then Some(3) else None
    else None
  }

  /** `([^#&?]{11})` at `q`. */
  predicate IdRunAt(s: string, q: nat) {
    q + 11 <= |s| && forall k :: q <= k < q + 11 ==> IsIdChar(s[k])
  }

  /** The second group when the marker group starts at `p`, trying the alternatives from `alt` on in order. */
  function MatchFrom(s: string, p: nat, alt: nat): (r: Option<string>)
    requires alt <= 6
    ensures r.Some? ==> |r.value| == 11 && forall c :: c in r.value ==> IsIdChar(c)
    decreases 6 - alt
  {
    if alt == 6 then None
    else
      var len := MarkerLength(s, p, alt);
      if len.Some? && IdRunAt(s, p + len.value) then
        assert forall c :: c in s[p + len.value..p + len.value + 11] ==> IsIdChar(c);
        Some(s[p + len.value..p + len.value + 11])
      else MatchFrom(s, p, alt + 1)
  }

  /** Where the leading `^.*` must stop: the first line terminator, or the end. */
  function LineEnd(s: string): (e: nat)
    ensures e <= |s|
    ensures forall k :: 0 <= k < e ==> !IsLineTerminator(s[k])
    ensures e < |s| ==> IsLineTerminator(s[e])
  {
    if s == [] || IsLineTerminator(s[0]) then 0 else 1 + LineEnd(s[1..])
  }

  /** Whether the marker group followed by the id matches when started at `k`. */
  function StartMatches(s: string): nat -> bool {
    (k: nat) => MatchFrom(s, k, 0).Some?
  }

  /**
   * The greedy `^.*` gives back one character at a time: the rest of the
   * pattern is tried at `p`, then `p - 1`, down to the start. The result is
   * the start where it succeeds, or -1 when none does.
   */
  function LastStart(succeeds: nat -> bool, p: nat): (q: int)
    ensures -1 <= q <= p
  {
    if succeeds(p) then p
    else if p == 0 then -1
    else LastStart(succeeds, p - 1)
  }

  /** The search stops at a start that succeeds, and no later start up to `p` succeeds. */
  lemma {:induction false} LastStartIsLast(succeeds: nat -> bool, p: nat)
    ensures LastStart(succeeds, p) >= 0 ==> succeeds(LastStart(succeeds, p))
    ensures forall k :: LastStart(succeeds, p) < k <= p ==> !succeeds(k)
  {
    if !succeeds(p) && p > 0 {
      LastStartIsLast(succeeds, p - 1);
    }
  }

  /**
   * `getYouTubeId`: the eleven characters after the last marker on the first
   * line, or nothing for an empty address or when no marker is followed by
   * eleven characters other than `#`, `&` and `?`.
   */
  function GetYouTubeId(url: Option<string>): (r: Option<string>)
    ensures !Truthy(url) ==> r.None?
    ensures r.Some? ==> |r.value| == 11 && '#' !in r.value && '&' !in r.value && '?' !in r.value
  {
    if !Truthy(url) then None
    else
      var q := LastStart(StartMatches(url.value), LineEnd(url.value));
      if q < 0 then None else MatchFrom(url.value, q, 0)
  }

  /** The id found is the one after the last marker of the first line that has one. */
  lemma GetYouTubeIdIsLastMatch(s: string)
    requires s != ""
    ensures var r, e := GetYouTubeId(Some(s)), LineEnd(s);
      (r.Some? ==> exists q :: 0 <= q <= e && MatchFrom(s, q, 0) == r && forall k :: q < k <= e ==> MatchFrom(s, k, 0).None?)
      && (r.None? ==> forall q :: 0 <= q <= e ==> MatchFrom(s, q, 0).None?)
  {
    var e := LineEnd(s);
    var q := LastStart(StartMatches(s), e);
    LastStartIsLast(StartMatches(s), e);
    assert forall k :: q < k <= e ==> MatchFrom(s, k, 0).None? by {
      forall k | q < k <= e
        ensures MatchFrom(s, k, 0).None?
      {
        assert !StartMatches(s)(k);
      }
    }
    if q >= 0 {
      assert StartMatches(s)(q);
      assert GetYouTubeId(Some(s)) == MatchFrom(s, q, 0);
    }
  }

  /** A short link: the eleven characters after `youtu.be/`. */
  lemma ShortLinkId(id: string)
    requires |id| == 11 && forall c :: c in id ==> IsIdChar(c) && !IsLineTerminator(c)
    ensures GetYouTubeId(Some("youtu.be/" + id)) == Some(id)
  {
    var s := "youtu.be/" + id;
    assert forall k :: 9 <= k < 20 ==> s[k] == id[k - 9];
    assert LineEnd(s) == 20 by {
      assert forall k :: 0 <= k < 20 ==> !IsLineTerminator(s[k]);
      LineEndOfClean(s);
    }
    assert s[..9] == "youtu.be/";
    forall q | 0 < q <= 20
      ensures !StartMatches(s)(q)
    {
      NoMarkerLate(s, q);
    }
    assert s[0..5] == "youtu" && s[6..9] == "be/";
    assert IdRunAt(s, 9);
    assert MarkerLength(s, 0, 0) == Some(9);
    assert s[9..20] == id;
    assert MatchFrom(s, 0, 0) == Some(id);
    assert StartMatches(s)(0);
    LastStartIsLast(StartMatches(s), 20);
    assert LastStart(StartMatches(s), 20) == 0;
  }

  lemma LineEndOfClean(s: string)
    requires forall k :: 0 <= k < |s| ==> !IsLineTerminator(s[k])
    ensures LineEnd(s) == |s|
  {
  }

  /** In a short link no marker after the first one leaves room for eleven more characters. */
  lemma NoMarkerLate(s: string, q: nat)
    requires |s| == 20 && s[..9] == "youtu.be/" && 0 < q <= 20
    ensures MatchFrom(s, q, 0).None?
  {
    LateAlternative(s, q, 5);
    assert MatchFrom(s, q, 5).None?;
    LateAlternative(s, q, 4);
    assert MatchFrom(s, q, 4).None?;
    LateAlternative(s, q, 3);
    assert MatchFrom(s, q, 3).None?;
    LateAlternative(s, q, 2);
    assert MatchFrom(s, q, 2).None?;
    LateAlternative(s, q, 1);
    assert MatchFrom(s, q, 1).None?;
    LateAlternative(s, q, 0);
  }

  /** One alternative of the marker group, started after the first character of a short link. */
  lemma LateAlternative(s: string, q: nat, alt: nat)
    requires |s| == 20 && s[..9] == "youtu.be/" && 0 < q <= 20 && alt <= 5
    ensures MarkerLength(s, q, alt).None? || !IdRunAt(s, q + MarkerLength(s, q, alt).value)
  {
    var h := "youtu.be/";
    assert forall k :: 0 <= k < 9 ==> s[k] == h[k];
    if alt == 1 && q <= 7 {
      assert s[q..q + 2][0] == s[q];
    } else if alt == 2 && q <= 5 {
      assert s[q..q + 2][0] == s[q] && s[q..q + 2][1] == s[q + 1];
    } else if alt == 3 && q <= 3 {
      assert s[q..q + 6][0] == s[q];
    } else if alt == 4 && q <= 1 {
      assert s[q..q + 8][0] == s[q];
    } else if alt == 5 && q <= 6 {
      assert s[q..q + 3][0] == s[q];
    }
  }


  // ---------------------------------------------------------------- expanded modules

  /** The expanded set on loading: the first module's key, when there is a module. */
  function InitialExpanded(ms: seq<PlayerModule>): (r: map<ModuleKey, bool>)
    ensures ms == [] ==> r == map[]
    ensures ms != [] ==> r == map[KeyOf(ms[0], 0) := true]
  {
    if ms == [] then map[] else map[KeyOf(ms[0], 0) := true]
  }

  /** `toggleModule`: flips one module's flag, a missing flag counting as collapsed. */
  function ToggleModule(expanded: map<ModuleKey, bool>, key: ModuleKey): (r: map<ModuleKey, bool>)
    ensures r.Keys == expanded.Keys + {key}
    ensures r[key] == !(key in expanded && expanded[key])
    ensures forall k :: k in expanded && k != key ==> r[k] == expanded[k]
  {
    expanded[key := !(key in expanded && expanded[key])]
  }

  /** Toggling the same module twice restores its flag and leaves the others alone. */
  lemma ToggleTwice(expanded: map<ModuleKey, bool>, key: ModuleKey)
    requires key in expanded
    ensures ToggleModule(ToggleModule(expanded, key), key) == expanded
  {
  }

  // ---------------------------------------------------------------- personal notes

  datatype VideoNote = VideoNote(
    id: string,
    text: string,
    date: int,
    courseId: string,
    courseTitle: string,
    videoTitle: string,
    videoIndex: nat)

  /** The notes listed after deleting `id`: the others, in their order. */
  function WithoutNote(ns: seq<VideoNote>, id: string): (r: seq<VideoNote>)
    ensures forall n :: n in r <==> n in ns && n.id != id
    ensures IsSubsequence(r, ns)
    ensures (forall n :: n in ns ==> n.id != id) ==> r == ns
  {
    Filter(ns, (n: VideoNote) => n.id != id)
  }

  /**
   * The notes panel of the player. `saved` is the `videoNotes` object in
   * local storage, keyed by note id; `shown` is the list beside the player.
   */
  class NotesPanel {
    var saved: map<string, VideoNote>
    var shown: seq<VideoNote>

    /** Every stored note sits under its own id, and every listed note is stored. */
    predicate Valid()
      reads this
    {
      (forall k :: k in saved ==> saved[k].id == k) && (forall n :: n in shown ==> n.id in saved)
    }

    constructor()
      ensures Valid()
      ensures saved == map[] && shown == []
    {
      saved := map[];
      shown := [];
    }

    /**
     * `loadNotes`: the stored notes of one course, each listed once. The
     * map abstraction of the stored object drops its insertion order, so
     * the order of the list is left open.
     */
    method LoadNotes(courseId: string)
      requires Valid()
      modifies this
      ensures Valid()
      ensures saved == old(saved)
      ensures forall n :: n in shown <==> n in saved.Values && n.courseId == courseId
      ensures NoDuplicates(shown)
    {
      var keys := saved.Keys;
      var acc := [];
      while keys != {}
        invariant keys <= saved.Keys
        invariant forall n :: n in acc <==> exists k :: k in saved.Keys - keys && saved[k] == n && n.courseId == courseId
        invariant forall n :: n in acc ==> n.id in saved.Keys - keys
        invariant NoDuplicates(acc)
        decreases keys
      {
        var k :| k in keys;
        if saved[k].courseId == courseId {
          acc := acc + [saved[k]];
        }
        keys := keys - {k};
      }
      shown := acc;
    }

    /**
     * `saveNote`: nothing happens for a blank draft, without a course, or
     * without a current video; otherwise the trimmed text is stored under
     * `courseId-now` and listed first.
     */
    method SaveNote(draft: string, courseId: string, courseTitle: Option<string>, current: Option<FlatVideo>,
                    currentIndex: nat, now: nat)
      requires Valid()
      modifies this
      ensures Valid()
      ensures Trim(draft) == "" || courseTitle.None? || current.None? ==> unchanged(this)
      ensures Trim(draft) != "" && courseTitle.Some? && current.Some? ==>
        var note := VideoNote(courseId + "-" + NatToString(now), Trim(draft), now, courseId, courseTitle.value,
                              current.value.video.title, currentIndex);
        saved == old(saved)[note.id := note] && shown == [note] + old(shown)
    {
      if Trim(draft) == "" || courseTitle.None? || current.None? {
        return;
      }
      var noteId := courseId + "-" + NatToString(now);
      var note := VideoNote(noteId, Trim(draft), now, courseId, courseTitle.value, current.value.video.title, currentIndex);
      saved := saved[noteId := note];
      shown := [note] + shown;
    }

    /** `deleteNote`: the id leaves storage and the list; everything else stays, in order. */
    method DeleteNote(noteId: string)
      requires Valid()
      modifies this
      ensures Valid()
      ensures saved == old(saved) - {noteId}
      ensures shown == WithoutNote(old(shown), noteId)
      ensures forall n :: n in shown ==> n.id != noteId
    {
      saved := saved - {noteId};
      shown := WithoutNote(shown, noteId);
    }
  }
}
