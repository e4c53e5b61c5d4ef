/**
 * The Google Drive viewer: the file id is pulled out of a shared link by
 * trying four patterns in order, and the id gives the address of the
 * embeddable preview.
 */
module DriveViewer {
  import opened Wrappers
  import opened JsString

  /** `[a-zA-Z0-9_-]`. */
  predicate IsIdChar(c: char) {
    ('a' <= c <= 'z') || ('A' <= c <= 'Z') || ('0' <= c <= '9') || c == '_' || c == '-'
  }

  /** The length of the run of id characters starting at `p`. */
  function RunLength(s: string, p: nat): (n: nat)
    requires p <= |s|
    ensures p + n <= |s|
    ensures forall k :: p <= k < p + n ==> IsIdChar(s[k])
    ensures p + n == |s| || !IsIdChar(s[p + n])
    decreases |s| - p
  {
    if p < |s| && IsIdChar(s[p]) then 1 + RunLength(s, p + 1) else 0
  }

  /** The four patterns, in the order they are tried. */
  datatype Pattern =
    | FilePath  // `/\/file\/d\/([a-zA-Z0-9_-]+)/`
    | OpenId    // `/open\?id=([a-zA-Z0-9_-]+)/`
    | IdParam   // `/[\?&]id=([a-zA-Z0-9_-]+)/`
    | BareId    // `/([a-zA-Z0-9_-]{25,})/`

  const Patterns: seq<Pattern> := [FilePath, OpenId, IdParam, BareId]

  /** The length of the part of `pat` before its group, when that part matches at `p`. */
  function LeadAt(pat: Pattern, s: string, p: nat): (r: Option<nat>)
    requires p <= |s|
    ensures r.Some? ==> p + r.value <= |s|
  {
    match pat
    case FilePath => if p + 8 <= |s| && s[p..p + 8] == "/file/d/" then Some(8) else None
    case OpenId => if p + 8 <= |s| && s[p..p + 8] == "open?id=" then Some(8) else None
    case IdParam => if p + 4 <= |s| && (s[p] == '?' || s[p] == '&') && s[p + 1..p + 4] == "id=" then Some(4) else None
    case BareId => Some(0)
  }

  /** The fewest id characters the group takes. */
  function MinRun(pat: Pattern): nat {
    if pat == BareId then 25 else 1
  }

  /** `pat` matches starting at `p`: its lead, then a long enough run. */
  predicate MatchesAt(pat: Pattern, s: string, p: nat)
    requires p <= |s|
  {
    LeadAt(pat, s, p).Some? && RunLength(s, p + LeadAt(pat, s, p).value) >= MinRun(pat)
  }

  /**
   * `s.match(pat)[1]` searching from `p`: the leftmost match, its group
   * taking the whole run of id characters.
   */
  function GroupFrom(pat: Pattern, s: string, p: nat): (r: Option<string>)
    requires p <= |s|
    ensures r.Some? ==> |r.value| >= MinRun(pat) && forall c :: c in r.value ==> IsIdChar(c)
    ensures r.Some? ==> exists q :: p <= q <= |s| && MatchesAt(pat, s, q)
    ensures r.None? <==> forall q :: p <= q <= |s| ==> !MatchesAt(pat, s, q)
    decreases |s| - p
  {
    if MatchesAt(pat, s, p) then
      var start := p + LeadAt(pat, s, p).value;
      var run := s[start..start + RunLength(s, start)];
      assert forall c :: c in run ==> IsIdChar(c);
      Some(run)
    else if p == |s| then None
    else GroupFrom(pat, s, p + 1)
  }

  /** `s.match(pat)[1]`, or nothing when `pat` does not match. */
  function Group(pat: Pattern, s: string): (r: Option<string>)
    ensures r.Some? ==> r.value != "" && |r.value| >= MinRun(pat) && forall c :: c in r.value ==> IsIdChar(c)
  {
    GroupFrom(pat, s, 0)
  }

  /** The group of the first pattern of `pats` that matches. */
  function FirstGroup(pats: seq<Pattern>, s: string): (r: Option<string>)
    ensures r.Some? ==> r.value != "" && forall c :: c in r.value ==> IsIdChar(c)
    ensures r.Some? <==> exists i :: 0 <= i < |pats| && Group(pats[i], s).Some?
  {
    if pats == [] then None
    else if Group(pats[0], s).Some? then Group(pats[0], s)
    else
      var rest := FirstGroup(pats[1..], s);
      assert forall i :: 0 < i < |pats| ==> pats[i] == pats[1..][i - 1];
      rest
  }

  /** What the extraction ends in; `DecodeFailed` is the error `decodeURIComponent` throws. */
  datatype Extraction = Id(value: string) | NoId | DecodeFailed

  /**
   * `extractGoogleDriveId`: nothing for a missing or empty link; otherwise
   * the link is decoded (`decode` stands for `decodeURIComponent`, which
   * fails on a malformed escape) and the patterns are tried in order, the
   * first match giving the id.
   */
  method ExtractGoogleDriveId(url: Option<string>, decode: string -> Option<string>) returns (r: Extraction)
    ensures !Truthy(url) ==> r == NoId
    ensures Truthy(url) && decode(url.value).None? ==> r == DecodeFailed
    ensures Truthy(url) && decode(url.value).Some? ==>
      !r.DecodeFailed? && (r.Id? <==> FirstGroup(Patterns, decode(url.value).value).Some?) &&
      (r.Id? ==> Some(r.value) == FirstGroup(Patterns, decode(url.value).value))
    ensures r.Id? ==> r.value != "" && forall c :: c in r.value ==> IsIdChar(c)
  {
    if !Truthy(url) {
      return NoId;
    }
    var decoded := decode(url.value);
    if decoded.None? {
      return DecodeFailed;
    }
    var s := decoded.value;
    var i := 0;
    while i < |Patterns|
      invariant 0 <= i <= |Patterns|
      invariant FirstGroup(Patterns, s) == FirstGroup(Patterns[i..], s)
    {
      var m := Group(Patterns[i], s);
      if m.Some? {
        return Id(m.value);
      }
      assert Patterns[i..][1..] == Patterns[i + 1..];
      i := i + 1;
    }
    return NoId;
  }

  /** A `/file/d/` link gives its id whatever other forms the link also contains. */
  lemma FilePathFirst(s: string)
    requires Group(FilePath, s).Some?
    ensures FirstGroup(Patterns, s) == Group(FilePath, s)
  {
  }

  /** An id found only by the last pattern is at least 25 characters long. */
  lemma BareIdIsLong(s: string)
    requires Group(FilePath, s).None? && Group(OpenId, s).None? && Group(IdParam, s).None?
    ensures FirstGroup(Patterns, s) == Group(BareId, s)
    ensures FirstGroup(Patterns, s).Some? ==> |FirstGroup(Patterns, s).value| >= 25
  {
    var p1, p2, p3 := Patterns[1..], Patterns[1..][1..], Patterns[1..][1..][1..];
    assert p3 == [BareId] && p3[1..] == [];
    assert p2[0] == IdParam && p1[0] == OpenId && Patterns[0] == FilePath;
    assert FirstGroup(p3, s) == Group(BareId, s);
    assert FirstGroup(p2, s) == FirstGroup(p3, s);
    assert FirstGroup(p1, s) == FirstGroup(p2, s);
  }

  /** A link with no pattern in it gives no id. */
  lemma NoPatternNoId(s: string)
    requires forall i :: 0 <= i < |Patterns| ==> Group(Patterns[i], s).None?
    ensures FirstGroup(Patterns, s).None?
  {
  }

  /** A bare `/file/d/` path gives the id it carries. */
  lemma FilePathGivesItsId(id: string, rest: string)
    requires id != "" && forall c :: c in id ==> IsIdChar(c)
    requires rest == "" || !IsIdChar(rest[0])
    ensures FirstGroup(Patterns, "/file/d/" + id + rest) == Some(id)
  {
    var s := "/file/d/" + id + rest;
    assert s[0..8] == "/file/d/" && s[8..8 + |id|] == id;
    FilePathAt(s, 0, id);
  }

  /** A run of exactly `n` id characters at `p`. */
  lemma {:induction false} RunOf(s: string, p: nat, n: nat)
    requires p + n <= |s|
    requires forall k :: p <= k < p + n ==> IsIdChar(s[k])
    requires p + n == |s| || !IsIdChar(s[p + n])
    ensures RunLength(s, p) == n
    decreases n
  {
    if n > 0 {
      RunOf(s, p + 1, n - 1);
    }
  }

  /** The viewer page once the note is loaded. */
  datatype Viewer = Ready(embedUrl: Option<string>) | LoadFailed

  /**
   * The embed address: the preview page of the extracted id when the note
   * has a Drive link and an id is found, none otherwise; a link that cannot
   * be decoded makes the page show its load error.
   */
  method EmbedUrl(googleDriveLink: Option<string>, decode: string -> Option<string>) returns (v: Viewer)
    ensures !Truthy(googleDriveLink) ==> v == Ready(None)
    ensures Truthy(googleDriveLink) && decode(googleDriveLink.value).None? ==> v == LoadFailed
    ensures Truthy(googleDriveLink) && decode(googleDriveLink.value).Some? ==>
      var found := FirstGroup(Patterns, decode(googleDriveLink.value).value);
      v == Ready(if found.Some? then Some("https://drive.google.com/file/d/" + found.value + "/preview") else None)
  {
    var embed := None;
    if Truthy(googleDriveLink) {
      var id := ExtractGoogleDriveId(googleDriveLink, decode);
      if id.DecodeFailed? {
        return LoadFailed;
      }
      if id.Id? {
        embed := Some("https://drive.google.com/file/d/" + id.value + "/preview");
      }
    }
    v := Ready(embed);
  }

  /** The id written into a preview address is what a `/file/d/` path reads back. */
  lemma PreviewPathRoundTrip(id: string)
    requires id != "" && forall c :: c in id ==> IsIdChar(c)
    ensures FirstGroup(Patterns, "/file/d/" + id + "/preview") == Some(id)
  {
    FilePathGivesItsId(id, "/preview");
  }

  /** No match of `pat` between `p` and `q` leaves the search result unchanged. */
  lemma {:induction false} SkipNoMatch(pat: Pattern, s: string, p: nat, q: nat)
    requires p <= q <= |s|
    requires forall k :: p <= k < q ==> !MatchesAt(pat, s, k)
    ensures GroupFrom(pat, s, p) == GroupFrom(pat, s, q)
    decreases q - p
  {
    if p < q {
      GroupFromStep(pat, s, p);
      SkipNoMatch(pat, s, p + 1, q);
    }
  }

  /** The search moves past a position where `pat` does not match. */
  lemma GroupFromStep(pat: Pattern, s: string, p: nat)
    requires p < |s| && !MatchesAt(pat, s, p)
    ensures GroupFrom(pat, s, p) == GroupFrom(pat, s, p + 1)
  {
  }

  /** The host part of the preview address holds no `/file/d/` match. */
  lemma NoFilePathInHost(s: string)
    requires |s| >= 32 && s[..24] == "https:" + "//" + "drive.google.com"
    ensures forall k :: 0 <= k < 24 ==> !MatchesAt(FilePath, s, k)
  {
    var a, b, c := "https:", "//", "drive.google.com";
    assert '/' !in a && '/' !in c;
    assert s[6] == '/' && s[7] == '/' && s[8] == 'd';
    forall k | 0 <= k < 24
      ensures !MatchesAt(FilePath, s, k)
    {
      assert s[k..k + 8][0] == s[k] && s[k..k + 8][1] == s[k + 1];
      if k < 6 {
        assert s[k] == a[k];
      } else if k >= 8 {
        assert s[k] == c[k - 8];
      }
    }
  }

  /** The first `/file/d/` match, at `p`, followed by exactly the id characters of `id`. */
  lemma FilePathAt(s: string, p: nat, id: string)
    requires p + 8 + |id| <= |s| && id != ""
    requires s[p..p + 8] == "/file/d/" && s[p + 8..p + 8 + |id|] == id
    requires forall k :: 0 <= k < |id| ==> IsIdChar(id[k])
    requires p + 8 + |id| == |s| || !IsIdChar(s[p + 8 + |id|])
    requires Group(FilePath, s) == GroupFrom(FilePath, s, p)
    ensures FirstGroup(Patterns, s) == Some(id)
  {
    FilePathMatch(s, p, id);
    FilePathFirst(s);
  }

  /** A `/file/d/` lead at `p` followed by exactly the id characters of `id` matches there with group `id`. */
  lemma FilePathMatch(s: string, p: nat, id: string)
    requires p + 8 + |id| <= |s| && id != ""
    requires s[p..p + 8] == "/file/d/" && s[p + 8..p + 8 + |id|] == id
    requires forall k :: 0 <= k < |id| ==> IsIdChar(id[k])
    requires p + 8 + |id| == |s| || !IsIdChar(s[p + 8 + |id|])
    ensures GroupFrom(FilePath, s, p) == Some(id)
  {
    forall k | p + 8 <= k < p + 8 + |id|
      ensures IsIdChar(s[k])
    {
      assert s[k] == s[p + 8..p + 8 + |id|][k - p - 8];
    }
    RunOf(s, p + 8, |id|);
    assert LeadAt(FilePath, s, p) == Some(8);
  }

  /** The preview address the viewer builds gives back the id it was built from. */
  lemma EmbedUrlRoundTrip(id: string)
    requires id != "" && forall c :: c in id ==> IsIdChar(c)
    ensures FirstGroup(Patterns, "https://drive.google.com/file/d/" + id + "/preview") == Some(id)
  {
    var s := "https://drive.google.com/file/d/" + id + "/preview";
    assert s[..24] == "https:" + "//" + "drive.google.com";
    NoFilePathInHost(s);
    assert s[24..32] == "/file/d/";
    assert s[32..32 + |id|] == id;
    SkipNoMatch(FilePath, s, 0, 24);
    FilePathAt(s, 24, id);
  }
}
