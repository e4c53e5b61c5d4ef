/**
 * The course page's two computations: the total running time of a list of
 * videos, written as hours and minutes, and the five-icon star row for a
 * rating.
 */
module CourseDetail {
  import opened Wrappers
  import opened JsString

  /** A playlist entry as the page sees it: only its optional duration text matters here. */
  datatype Lesson = Lesson(duration: Option<string>)

  // ---------------------------------------------------------------- durations

  /**
   * The minutes one duration text contributes: it is read as `hours:minutes`,
   * each part through `Number(..) || 0`; parts after the second are ignored,
   * a missing minutes part counts 0, and a missing or empty text counts 0.
   */
  function DurationMinutes(d: Option<string>): (m: nat)
    ensures !Truthy(d) ==> m == 0
  {
    if d.None? || d.value == "" then 0
    else
      var parts := Split(d.value, ':');
      NumberOrZero(parts[0]) * 60 + (if |parts| > 1 then NumberOrZero(parts[1]) else 0)
  }

  /** A duration written `a:b` in plain decimal counts `a` hours and `b` minutes. */
  lemma HoursAndMinutes(a: nat, b: nat)
    ensures DurationMinutes(Some(NatToString(a) + ":" + NatToString(b))) == a * 60 + b
  {
    DigitsRoundTrip(a);
    DigitsRoundTrip(b);
    ColonDigits(NatToString(a), NatToString(b));
  }

  /** Two digit runs around the colon count as hours and minutes. */
  lemma ColonDigits(x: string, y: string)
    requires |x| >= 1 && AllDigits(x) && |y| >= 1 && AllDigits(y)
    ensures DurationMinutes(Some(x + ":" + y)) == DigitsValue(x) * 60 + DigitsValue(y)
  {
    OnlyDigits(x, ':');
    OnlyDigits(y, ':');
    SplitAround(x, y, ':');
    SplitWithout(y, ':');
    assert Split(x + ":" + y, ':') == [x, y];
    DigitRunTrims(x);
    DigitRunTrims(y);
  }

  /** A non-empty run of digits is its own trimmed form. */
  lemma DigitRunTrims(s: string)
    requires |s| >= 1 && AllDigits(s)
    ensures Trim(s) == s
  {
    assert IsDigit(s[0]) && IsDigit(s[|s| - 1]);
    TrimUnchanged(s);
  }

  /** A text without the colon counts entirely as hours. */
  lemma HoursOnly(s: string)
    requires s != "" && ':' !in s
    ensures DurationMinutes(Some(s)) == NumberOrZero(s) * 60
  {
    SplitWithout(s, ':');
  }

  /** The sum of the durations, first to last. */
  function TotalMinutes(videos: seq<Lesson>): nat {
    if videos == [] then 0 else TotalMinutes(videos[..|videos| - 1]) + DurationMinutes(videos[|videos| - 1].duration)
  }

  /** Durations add up across concatenated lists. */
  lemma {:induction false} TotalMinutesAppend(a: seq<Lesson>, b: seq<Lesson>)
    ensures TotalMinutes(a + b) == TotalMinutes(a) + TotalMinutes(b)
  {
    if b == [] {
      assert a + b == a;
    } else {
      var init, last := b[..|b| - 1], b[|b| - 1];
      assert b == init + [last];
      assert a + b == (a + init) + [last];
      TotalMinutesAppend(a, init);
      TotalMinutesSnoc(a + init, last);
      TotalMinutesSnoc(init, last);
    }
  }

  /** Adding one video at the end adds its duration. */
  lemma TotalMinutesSnoc(xs: seq<Lesson>, v: Lesson)
    ensures TotalMinutes(xs + [v]) == TotalMinutes(xs) + DurationMinutes(v.duration)
  {
    assert (xs + [v])[..|xs|] == xs;
  }

  /** `{h}h {m}m` when there is at least an hour, else `{m}m`. */
  function FormatDuration(total: nat): (r: string)
    ensures |r| >= 2 && r[|r| - 1] == 'm'
    ensures total < 60 ==> r == NatToString(total) + "m"
    ensures total >= 60 ==> r == NatToString(total / 60) + "h " + NatToString(total % 60) + "m"
  {
    var hrs := total / 60;
    var mins := total % 60;
    if hrs > 0 then NatToString(hrs) + "h " + NatToString(mins) + "m" else NatToString(mins) + "m"
  }

  /** Reads back a text of the shape `{h}h {m}m` or `{m}m`. */
  function ReadDuration(s: string): Option<nat> {
    if |s| == 0 || s[|s| - 1] != 'm' then None else ReadPieces(Split(s[..|s| - 1], ' '))
  }

  /** The blank-separated pieces before the final `m`: minutes alone, or hours ending in `h` then minutes. */
  function ReadPieces(parts: seq<string>): Option<nat> {
    if |parts| == 1 && parts[0] != "" && AllDigits(parts[0]) then Some(DigitsValue(parts[0]))
    else if |parts| == 2 && |parts[0]| >= 2 && parts[0][|parts[0]| - 1] == 'h' &&
            AllDigits(parts[0][..|parts[0]| - 1]) && parts[1] != "" && AllDigits(parts[1])
    then Some(DigitsValue(parts[0][..|parts[0]| - 1]) * 60 + DigitsValue(parts[1]))
    else None
  }

  /** The written duration determines the total: reading it back gives the minutes. */
  lemma FormatDurationRoundTrip(total: nat)
    ensures ReadDuration(FormatDuration(total)) == Some(total)
  {
    var hrs, mins := total / 60, total % 60;
    var text := FormatDuration(total);
    DigitsRoundTrip(mins);
    if hrs > 0 {
      DigitsRoundTrip(hrs);
      assert text == NatToString(hrs) + "h " + NatToString(mins) + "m";
      ReadHoursMinutes(NatToString(hrs), NatToString(mins));
    } else {
      assert text == NatToString(mins) + "m";
      ReadMinutes(NatToString(mins));
    }
    SomeValue(ReadDuration(text), total);
  }

  /** `{h}h {m}m` with digit runs `h` and `m` reads back as `h` hours and `m` minutes. */
  lemma ReadHoursMinutes(h: string, m: string)
    requires |h| >= 1 && AllDigits(h) && |m| >= 1 && AllDigits(m)
    ensures ReadDuration(h + "h " + m + "m").Some?
    ensures ReadDuration(h + "h " + m + "m").value == DigitsValue(h) * 60 + DigitsValue(m)
  {
    var hh := h + "h";
    var body := hh + [' '] + m;
    var s := h + "h " + m + "m";
    assert s == body + "m";
    assert s[..|s| - 1] == body;
    OnlyDigits(h, ' ');
    OnlyDigits(m, ' ');
    assert ' ' !in hh;
    SplitAround(hh, m, ' ');
    SplitWithout(m, ' ');
    assert Split(body, ' ') == [hh, m];
    assert ReadDuration(s) == ReadPieces([hh, m]);
    assert hh[..|hh| - 1] == h && hh[|hh| - 1] == 'h';
  }

  /** `{m}m` with a digit run `m` reads back as `m` minutes. */
  lemma ReadMinutes(m: string)
    requires |m| >= 1 && AllDigits(m)
    ensures ReadDuration(m + "m").Some? && ReadDuration(m + "m").value == DigitsValue(m)
  {
    var s := m + "m";
    assert s[..|s| - 1] == m;
    OnlyDigits(m, ' ');
    SplitWithout(m, ' ');
  }

  /** An option holding `v` is `Some(v)`. */
  lemma SomeValue(o: Option<nat>, v: nat)
    requires o.Some? && o.value == v
    ensures o == Some(v)
  {
  }

  /** A digit string holds no other character. */
  lemma OnlyDigits(s: string, c: char)
    requires AllDigits(s) && !IsDigit(c)
    ensures c !in s
  {
  }

  /** Different totals are written differently. */
  lemma FormatDurationInjective(a: nat, b: nat)
    requires FormatDuration(a) == FormatDuration(b)
    ensures a == b
  {
    FormatDurationRoundTrip(a);
    FormatDurationRoundTrip(b);
  }

  /**
   * `getTotalDuration`: `00:00` for a missing or empty list; otherwise the
   * durations are added up one video at a time and the total is written as
   * hours and minutes.
   */
  method GetTotalDuration(videos: Option<seq<Lesson>>) returns (r: string)
    ensures videos.None? || videos.value == [] ==> r == "00:00"
    ensures videos.Some? && videos.value != [] ==> r == FormatDuration(TotalMinutes(videos.value))
    ensures videos.Some? && videos.value != [] ==> ReadDuration(r) == Some(TotalMinutes(videos.value))
  {
    if videos.None? || |videos.value| == 0 {
      return "00:00";
    }
    var vs := videos.value;
    var totalMinutes := 0;
    var i := 0;
    while i < |vs|
      invariant 0 <= i <= |vs|
      invariant totalMinutes == TotalMinutes(vs[..i])
    {
      assert vs[..i + 1][..i] == vs[..i];
      totalMinutes := totalMinutes + DurationMinutes(vs[i].duration);
      i := i + 1;
    }
    assert vs[..i] == vs;
    FormatDurationRoundTrip(totalMinutes);
    r := FormatDuration(totalMinutes);
  }

  /**
   * The course form always sends `10:00` as a video's duration, meant as ten
   * minutes; read as `hours:minutes` it counts ten hours.
   */
  lemma FormDefaultDurationReadsAsTenHours(d: string)
    requires d == "10:00"
    ensures DurationMinutes(Some(d)) == 600
  {
    TenAndZero(d);
    ColonDigits(d[..2], d[3..]);
  }

  /** The two digit runs of `10:00`, around its colon. */
  lemma TenAndZero(d: string)
    requires d == "10:00"
    ensures d == d[..2] + ":" + d[3..]
    ensures |d[..2]| >= 1 && AllDigits(d[..2]) && DigitsValue(d[..2]) == 10
    ensures |d[3..]| >= 1 && AllDigits(d[3..]) && DigitsValue(d[3..]) == 0
  {
    var x, y := "10", "00";
    assert d[..2] == x && d[3..] == y;
    assert d == x + ":" + y;
    assert DigitsValue(x) == 10 by {
      assert x[..1] == "1";
    }
    assert DigitsValue(y) == 0 by {
      assert y[..1] == "0";
    }
  }

  // ---------------------------------------------------------------- stars

  datatype Star = Full | Half | Empty

  /** JavaScript's `r % 1`: the fractional part, carrying the sign of `r`. */
  function FractionJs(r: real): (f: real)
    ensures -1.0 < f < 1.0
    ensures r >= 0.0 ==> 0.0 <= f && f == r - (r.Floor as real)
    ensures r < 0.0 ==> f <= 0.0
  {
    if r >= 0.0 then r - (r.Floor as real) else -((-r) - ((-r).Floor as real))
  }

  /** `rating % 1 >= 0.5`. */
  predicate HasHalfStar(rating: real) {
    FractionJs(rating) >= 0.5
  }

  /** The icon at 1-based position `i`. */
  function StarAt(rating: real, i: int): Star {
    if i <= rating.Floor then Full
    else if i == rating.Floor + 1 && HasHalfStar(rating) then Half
    else Empty
  }

  /**
   * `renderStars`: positions 1 to 5, each filled up to the whole part of
   * the rating, a half star just after it when the fraction is at least one
   * half, and empty otherwise.
   */
  method RenderStars(rating: real) returns (stars: seq<Star>)
    ensures |stars| == 5
    ensures forall k :: 0 <= k < 5 ==> stars[k] == StarAt(rating, k + 1)
    ensures stars == StarRow(rating)
  {
    stars := [];
    for i := 1 to 6
      invariant |stars| == i - 1
      invariant forall k :: 0 <= k < i - 1 ==> stars[k] == StarAt(rating, k + 1)
    {
      var fullStars := rating.Floor;
      if i <= fullStars {
        stars := stars + [Full];
      } else if i == fullStars + 1 && HasHalfStar(rating) {
        stars := stars + [Half];
      } else {
        stars := stars + [Empty];
      }
    }
  }

  /** The row `RenderStars` produces. */
  function StarRow(rating: real): (row: seq<Star>)
    ensures |row| == 5
  {
    seq(5, k requires 0 <= k < 5 => StarAt(rating, k + 1))
  }

  function Tally(s: seq<Star>, x: Star): nat {
    if s == [] then 0 else Tally(s[..|s| - 1], x) + (if s[|s| - 1] == x then 1 else 0)
  }

  /** A row whose `x` icons are exactly its first `f` positions holds `f` of them, clamped to the row. */
  lemma {:induction false} TallyOfPrefix(s: seq<Star>, x: Star, f: int)
    requires forall k :: 0 <= k < |s| ==> (s[k] == x <==> k < f)
    ensures Tally(s, x) == if f <= 0 then 0 else if f >= |s| then |s| else f
  {
    if s != [] {
      TallyOfPrefix(s[..|s| - 1], x, f);
    }
  }

  /** A row with `x` at no position other than `p` holds at most one `x`. */
  lemma {:induction false} TallyAtMostOne(s: seq<Star>, x: Star, p: int)
    requires forall k :: 0 <= k < |s| && s[k] == x ==> k == p
    ensures Tally(s, x) <= 1
    ensures Tally(s, x) == 1 <==> 0 <= p < |s| && s[p] == x
  {
    if s != [] {
      var init := s[..|s| - 1];
      TallyAtMostOne(init, x, p);
      if s[|s| - 1] == x {
        TallyAtMostOne(init, x, -1);
      }
    }
  }

  /** The first `min(5, floor(rating))` icons are filled, and no others. */
  lemma FullStars(rating: real)
    ensures Tally(StarRow(rating), Full) == if rating.Floor <= 0 then 0 else if rating.Floor >= 5 then 5 else rating.Floor
  {
    TallyOfPrefix(StarRow(rating), Full, rating.Floor);
  }

  /**
   * At most one half star appears, only right after the filled ones, and
   * only when the fractional part is at least one half.
   */
  lemma HalfStar(rating: real)
    ensures Tally(StarRow(rating), Half) <= 1
    ensures forall k :: 0 <= k < 5 && StarRow(rating)[k] == Half ==> k + 1 == rating.Floor + 1 && FractionJs(rating) >= 0.5
    ensures Tally(StarRow(rating), Half) == 1 <==> 0 <= rating.Floor < 5 && FractionJs(rating) >= 0.5
  {
    var row := StarRow(rating);
    TallyAtMostOne(row, Half, rating.Floor);
  }

  /** Whole ratings never show a half star. */
  lemma WholeRatingHasNoHalf(n: int)
    ensures Tally(StarRow(n as real), Half) == 0
  {
    HalfStar(n as real);
    assert FractionJs(n as real) <= 0.0;
  }
}
