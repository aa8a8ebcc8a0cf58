/**
 * The data helpers of the bookmark detail screen (app/bookmark.tsx): the
 * episode duration label, the choice of the show fixture from the route
 * parameter, the choice of the episode and the cover image, and the URL a
 * tapped description link is opened with.
 */
module Bookmark {
  import opened Wrappers
  import opened JsText

  // ---------------------------------------------------------------------------
  // Fixture data
  // ---------------------------------------------------------------------------

  datatype Image = Image(url: string, height: nat, width: nat)

  datatype Episode = Episode(
    id: string,
    name: string,
    durationMs: nat,
    releaseDate: string,
    images: seq<Image>)

  /** A show fixture; its episode list may hold `null` entries. */
  datatype Show = Show(
    name: string,
    publisher: string,
    images: seq<Image>,
    items: seq<Option<Episode>>)

  /** The fixture used when the route names none, or one that does not exist. */
  const DefaultFixture: string := "sharp-tech"

  // ---------------------------------------------------------------------------
  // formatDuration
  // ---------------------------------------------------------------------------

  /** The clock reading of a duration. */
  datatype Clock = Clock(hours: nat, minutes: nat, seconds: nat)

  /**
   * A number of whole seconds split into hours, minutes and seconds: minutes
   * and seconds stay below 60 and together the parts add up to the total.
   */
  function ClockOf(totalSeconds: nat): (c: Clock)
    ensures c.minutes < 60 && c.seconds < 60
    ensures c.hours * 3600 + c.minutes * 60 + c.seconds == totalSeconds
  {
    SplitSeconds(totalSeconds);
    Clock(totalSeconds / 3600, (totalSeconds % 3600) / 60, totalSeconds % 60)
  }

  lemma SplitSeconds(t: nat)
    ensures (t % 3600) / 60 < 60
    ensures (t / 3600) * 3600 + ((t % 3600) / 60) * 60 + t % 60 == t
  {
    var h, r := t / 3600, t % 3600;
    var m, s := r / 60, r % 60;
    assert t == h * 3600 + r;
    assert r == m * 60 + s;
    assert t == (h * 60 + m) * 60 + s;
    DivModUnique(t, 60, h * 60 + m, s);
  }

  /** Quotient and remainder are the only such pair. */
  lemma DivModUnique(a: nat, b: nat, q: nat, r: nat)
    requires 0 <= r < b && a == q * b + r
    ensures q == a / b && r == a % b
  {
    var q0, r0 := a / b, a % b;
    assert (q - q0) * b == r0 - r;
    if q > q0 {
      MulAtLeast(q - q0, b);
    } else if q < q0 {
      MulAtLeast(q0 - q, b);
    }
  }

  lemma {:induction false} MulAtLeast(k: int, b: int)
    requires k >= 1 && b > 0
    ensures k * b >= b
  {
    if k > 1 {
      MulAtLeast(k - 1, b);
      assert k * b == (k - 1) * b + b;
    }
  }

  /** The only clock reading with minutes and seconds below 60 that adds up to `t`. */
  lemma ClockOfUnique(t: nat, c: Clock)
    requires c.minutes < 60 && c.seconds < 60
    requires c.hours * 3600 + c.minutes * 60 + c.seconds == t
    ensures c == ClockOf(t)
  {
    var rest := c.minutes * 60 + c.seconds;
    DivModUnique(t, 3600, c.hours, rest);
    DivModUnique(rest, 60, c.minutes, c.seconds);
    assert t == (c.hours * 60 + c.minutes) * 60 + c.seconds;
    DivModUnique(t, 60, c.hours * 60 + c.minutes, c.seconds);
  }

  /** `n.toString().padStart(2, '0')`. */
  function Pad2(n: nat): string
  {
    PadStart(DecimalString(n), 2, '0')
  }

  /**
   * Below 100 (so for every minute and second count) `Pad2` gives exactly two
   * digits, the first of them `'0'` exactly when `n < 10`, and they read back as `n`.
   */
  lemma Pad2Shape(n: nat)
    requires n < 100
    ensures |Pad2(n)| == 2 && AllDigits(Pad2(n))
    ensures Pad2(n)[0] == '0' <==> n < 10
    ensures DecimalValue(Pad2(n)) == n
  {
    var d := DecimalString(n);
    var p := Pad2(n);
    DecimalRoundTrip(n);
    if n < 10 {
      assert p == ['0'] + d;
      assert p[..1] == ['0'];
    } else {
      assert n / 10 < 10;
      assert |DecimalString(n / 10)| == 1;
      assert p == d;
    }
  }

  /** `H:MM:SS`: the hours unpadded, minutes and seconds on two digits. */
  function HoursLabel(h: nat, m: nat, sec: nat): string
  {
    DecimalString(h) + ":" + Pad2(m) + ":" + Pad2(sec)
  }

  /** `M:SS`: the minutes unpadded, the seconds on two digits. */
  function MinutesLabel(m: nat, sec: nat): string
  {
    DecimalString(m) + ":" + Pad2(sec)
  }

  /** A clock reading as printed: `H:MM:SS` with hours, otherwise `M:SS`. */
  function FormatClock(c: Clock): string
  {
    if c.hours > 0 then HoursLabel(c.hours, c.minutes, c.seconds) else MinutesLabel(c.minutes, c.seconds)
  }

  /**
   * `formatDuration`: `H:MM:SS` when there is at least one whole hour,
   * otherwise `M:SS` with the minutes unpadded; milliseconds are dropped.
   */
  function FormatDuration(ms: nat): string
  {
    FormatClock(ClockOf(ms / 1000))
  }

  /** Splits `s` into what precedes a final `:DD` and the value of `DD`. */
  function LastField(s: string): Option<(string, nat)>
  {
    if |s| < 3 || s[|s| - 3] != ':' || !AllDigits(s[|s| - 2..]) then None
    else Some((s[..|s| - 3], DecimalValue(s[|s| - 2..])))
  }

  /** Any text followed by `:` and two digits splits back into the two. */
  lemma LastFieldOf(head: string, p: string)
    requires |p| == 2 && AllDigits(p)
    ensures LastField(head + ":" + p) == Some((head, DecimalValue(p)))
  {
    var s := head + ":" + p;
    assert s[|s| - 2..] == p;
    assert s[..|s| - 3] == head;
  }

  /**
   * A reader for `H:MM:SS` and `M:SS` labels: the number of seconds they
   * stand for, or `None` for anything else.
   */
  function ParseClock(s: string): Option<nat>
  {
    match LastField(s)
    case None => None
    case Some((head, secs)) =>
      if secs >= 60 || head == [] then None
      else if AllDigits(head) then Some(DecimalValue(head) * 60 + secs)
      else
        match LastField(head)
        case None => None
        case Some((hours, mins)) =>
          if mins < 60 && hours != [] && AllDigits(hours) then
            Some(DecimalValue(hours) * 3600 + mins * 60 + secs)
          else None
  }

  lemma ParseClockMinutes(s: string, minutes: string, m: nat, secs: nat, t: nat)
    requires LastField(s) == Some((minutes, secs)) && secs < 60
    requires minutes != [] && AllDigits(minutes) && DecimalValue(minutes) == m
    requires t == m * 60 + secs
    ensures ParseClock(s) == Some(t)
  {
  }

  lemma ParseClockHours(s: string, head: string, secs: nat, hours: string, h: nat, mins: nat, t: nat)
    requires LastField(s) == Some((head, secs)) && secs < 60
    requires head != [] && !AllDigits(head)
    requires LastField(head) == Some((hours, mins)) && mins < 60
    requires hours != [] && AllDigits(hours) && DecimalValue(hours) == h
    requires t == h * 3600 + mins * 60 + secs
    ensures ParseClock(s) == Some(t)
  {
  }

  /** A printed clock reading with minutes and seconds below 60 reads back as its seconds. */
  lemma FormatClockRoundTrip(c: Clock, t: nat)
    requires c.minutes < 60 && c.seconds < 60
    requires t == c.hours * 3600 + c.minutes * 60 + c.seconds
    ensures ParseClock(FormatClock(c)) == Some(t)
  {
    if c.hours > 0 {
      HoursLabelRoundTrip(c.hours, c.minutes, c.seconds, t);
    } else {
      MinutesLabelRoundTrip(c.minutes, c.seconds, t);
    }
  }

  lemma HoursLabelRoundTrip(h: nat, m: nat, sec: nat, t: nat)
    requires m < 60 && sec < 60 && t == h * 3600 + m * 60 + sec
    ensures ParseClock(HoursLabel(h, m, sec)) == Some(t)
  {
    var d, pm, ps := DecimalString(h), Pad2(m), Pad2(sec);
    DecimalRoundTrip(h);
    Pad2Shape(m);
    Pad2Shape(sec);
    var head := d + ":" + pm;
    var s := head + ":" + ps;
    assert HoursLabel(h, m, sec) == s;
    LastFieldOf(head, ps);
    assert head[|d|] == ':';
    LastFieldOf(d, pm);
    ParseClockHours(s, head, sec, d, h, m, t);
  }

  lemma MinutesLabelRoundTrip(m: nat, sec: nat, t: nat)
    requires m < 60 && sec < 60 && t == m * 60 + sec
    ensures ParseClock(MinutesLabel(m, sec)) == Some(t)
  {
    var d, ps := DecimalString(m), Pad2(sec);
    DecimalRoundTrip(m);
    Pad2Shape(sec);
    var s := d + ":" + ps;
    assert MinutesLabel(m, sec) == s;
    LastFieldOf(d, ps);
    ParseClockMinutes(s, d, m, sec, t);
  }

  /** The label reads back as the whole number of seconds in `ms`. */
  lemma FormatDurationRoundTrip(ms: nat)
    ensures ParseClock(FormatDuration(ms)) == Some(ms / 1000)
  {
    FormatClockRoundTrip(ClockOf(ms / 1000), ms / 1000);
  }

  /** Two durations get the same label exactly when they have the same whole seconds. */
  lemma FormatDurationInjective(a: nat, b: nat)
    ensures FormatDuration(a) == FormatDuration(b) <==> a / 1000 == b / 1000
  {
    FormatDurationRoundTrip(a);
    FormatDurationRoundTrip(b);
    if a / 1000 == b / 1000 {
      assert ClockOf(a / 1000) == ClockOf(b / 1000);
    }
  }

  /** Sub-second milliseconds never show. */
  lemma FormatDurationTruncates(ms: nat)
    ensures FormatDuration(ms) == FormatDuration(ms - ms % 1000)
  {
    DivModUnique(ms - ms % 1000, 1000, ms / 1000, 0);
    FormatDurationInjective(ms, ms - ms % 1000);
  }

  /** The characters of `s` are digits except at the positions in `colons`, which hold `:`. */
  predicate DigitsWithColonsAt(s: string, colons: set<int>)
  {
    forall i :: 0 <= i < |s| ==> if i in colons then s[i] == ':' else IsDigit(s[i])
  }

  /** A numeral followed by one or more `:DD` fields has digits everywhere but at the colons. */
  lemma FieldsLayout(d: string, p: string)
    requires d != [] && AllDigits(d) && AllDigits(p) && |p| == 2
    ensures var s := d + ":" + p; DigitsWithColonsAt(s, {|s| - 3}) && s[0] == d[0]
  {
  }

  lemma FieldsLayout2(d: string, p: string, q: string)
    requires d != [] && AllDigits(d) && AllDigits(p) && AllDigits(q) && |p| == 2 && |q| == 2
    ensures var s := d + ":" + p + ":" + q; DigitsWithColonsAt(s, {|s| - 6, |s| - 3}) && s[0] == d[0]
  {
    var head := d + ":" + p;
    FieldsLayout(d, p);
    assert forall i :: 0 <= i < |head| ==> (head + ":" + q)[i] == head[i];
  }

  /**
   * The layout of `H:MM:SS` for `h` hours: the hour numeral, without a
   * leading zero, then a colon and two digits, twice.
   */
  predicate HoursLayout(s: string, h: nat)
  {
    |s| == |DecimalString(h)| + 6 && DigitsWithColonsAt(s, {|s| - 6, |s| - 3}) && s[0] != '0'
  }

  /**
   * The layout of `M:SS` for `m` minutes: the minute numeral, `0` only for
   * zero minutes, then a colon and two digits.
   */
  predicate MinutesLayout(s: string, m: nat)
  {
    |s| == |DecimalString(m)| + 3 && DigitsWithColonsAt(s, {|s| - 3}) && (s[0] == '0' <==> m == 0)
  }

  lemma HoursLabelLayout(h: nat, m: nat, sec: nat)
    requires h > 0 && m < 60 && sec < 60
    ensures HoursLayout(HoursLabel(h, m, sec), h)
  {
    var dh, pm, ps := DecimalString(h), Pad2(m), Pad2(sec);
    Pad2Shape(m);
    Pad2Shape(sec);
    FieldsLayout2(dh, pm, ps);
    assert HoursLabel(h, m, sec) == dh + ":" + pm + ":" + ps;
  }

  lemma MinutesLabelLayout(m: nat, sec: nat)
    requires sec < 60
    ensures MinutesLayout(MinutesLabel(m, sec), m)
  {
    var dm, ps := DecimalString(m), Pad2(sec);
    Pad2Shape(sec);
    FieldsLayout(dm, ps);
    assert MinutesLabel(m, sec) == dm + ":" + ps;
  }

  /** Hours show exactly from 3600 seconds on; below that, minutes show as `0` exactly below 60 seconds. */
  lemma ClockLeadingField(c: Clock, t: nat)
    requires c.minutes < 60 && c.seconds < 60
    requires t == c.hours * 3600 + c.minutes * 60 + c.seconds
    ensures c.hours > 0 <==> t >= 3600
    ensures c.hours == 0 ==> (c.minutes == 0 <==> t < 60)
  {
  }

  /** The layout of a printed clock reading of `t` seconds, by its leading field. */
  lemma FormatClockLayout(c: Clock, t: nat)
    requires c.minutes < 60 && c.seconds < 60
    requires t == c.hours * 3600 + c.minutes * 60 + c.seconds
    ensures t >= 3600 ==> HoursLayout(FormatClock(c), c.hours)
    ensures t < 3600 ==> MinutesLayout(FormatClock(c), c.minutes) && (c.minutes == 0 <==> t < 60)
  {
    ClockLeadingField(c, t);
    if c.hours > 0 {
      HoursLabelLayout(c.hours, c.minutes, c.seconds);
    } else {
      MinutesLabelLayout(c.minutes, c.seconds);
    }
  }

  /**
   * The label of a duration: from one hour on, two colons and the hour
   * numeral first; below an hour, one colon and the unpadded minute numeral
   * first, which is `0` exactly below one minute.
   */
  lemma FormatDurationLayout(ms: nat)
    ensures ms >= 3600000 ==> HoursLayout(FormatDuration(ms), ClockOf(ms / 1000).hours)
    ensures ms < 3600000 ==> MinutesLayout(FormatDuration(ms), ClockOf(ms / 1000).minutes)
                             && (ClockOf(ms / 1000).minutes == 0 <==> ms < 60000)
  {
    FormatClockLayout(ClockOf(ms / 1000), ms / 1000);
  }

  // ---------------------------------------------------------------------------
  // Fixture lookup, episode and cover image
  // ---------------------------------------------------------------------------

  /**
   * `fixtures[fixtureId ?? 'sharp-tech'] ?? fixtures['sharp-tech']`, reading
   * only the table's own entries: the named fixture when there is one, the
   * default fixture otherwise.
   */
  function LookupFixture(fixtures: map<string, Show>, fixtureId: Option<string>): (r: Show)
    requires DefaultFixture in fixtures
    ensures fixtureId.Some? && fixtureId.value in fixtures ==> r == fixtures[fixtureId.value]
    ensures fixtureId.None? || fixtureId.value !in fixtures ==> r == fixtures[DefaultFixture]
    ensures r in fixtures.Values
  {
    var key := fixtureId.GetOr(DefaultFixture);
    if key in fixtures then fixtures[key] else fixtures[DefaultFixture]
  }

  /**
   * The names an object literal inherits from `Object.prototype`. Reading
   * one of them from the fixture table gives an inherited member (a function,
   * or the prototype itself for `__proto__`), never `undefined`.
   */
  const PrototypeMembers: set<string> := {
    "constructor", "hasOwnProperty", "isPrototypeOf", "propertyIsEnumerable",
    "toLocaleString", "toString", "valueOf", "__proto__",
    "__defineGetter__", "__defineSetter__", "__lookupGetter__", "__lookupSetter__"
  }

  /** What `fixtures[key]` evaluates to on the object literal. */
  datatype Property = OwnFixture(show: Show) | InheritedMember | Undefined

  /** Property access on the fixture table: own entries first, then the prototype chain. */
  function ReadProperty(fixtures: map<string, Show>, key: string): (p: Property)
    ensures p.OwnFixture? <==> key in fixtures
    ensures p.OwnFixture? ==> p.show == fixtures[key]
    ensures p.InheritedMember? <==> key !in fixtures && key in PrototypeMembers
  {
    if key in fixtures then OwnFixture(fixtures[key])
    else if key in PrototypeMembers then InheritedMember
    else Undefined
  }

  /**
   * `fixtures[fixtureId ?? 'sharp-tech'] ?? fixtures['sharp-tech']` as the
   * object literal evaluates it. `??` only falls back on `undefined`, so an
   * inherited member is kept; `None` stands for the `TypeError` that reading
   * `.episodes.items` of it then raises.
   */
  function PodcastDataAsWritten(fixtures: map<string, Show>, fixtureId: Option<string>): (r: Option<Show>)
    requires DefaultFixture in fixtures
    ensures var key := fixtureId.GetOr(DefaultFixture);
      r.None? <==> key !in fixtures && key in PrototypeMembers
  {
    match ReadProperty(fixtures, fixtureId.GetOr(DefaultFixture))
    case OwnFixture(show) => Some(show)
    case InheritedMember => None
    case Undefined => Some(fixtures[DefaultFixture])
  }

  /** Wherever the route parameter is not an inherited name, the lookup as written is `LookupFixture`. */
  lemma PodcastDataAsWrittenAgrees(fixtures: map<string, Show>, fixtureId: Option<string>)
    requires DefaultFixture in fixtures
    requires fixtureId.Some? ==> fixtureId.value in fixtures || fixtureId.value !in PrototypeMembers
    ensures PodcastDataAsWritten(fixtures, fixtureId) == Some(LookupFixture(fixtures, fixtureId))
  {
  }

  /**
   * On the screen's table, whose keys are the five show ids, the route
   * parameter `constructor` skips the fallback to the default show, which
   * `LookupFixture` falls back to.
   */
  lemma ConstructorSkipsFallback(fixtures: map<string, Show>)
    requires fixtures.Keys == {"sharp-tech", "founders", "jre", "modern-wisdom", "dithering"}
    ensures PodcastDataAsWritten(fixtures, Some("constructor")) == None
    ensures LookupFixture(fixtures, Some("constructor")) == fixtures[DefaultFixture]
  {
    assert "constructor" !in fixtures;
    assert "constructor" in PrototypeMembers;
  }

  /**
   * `items.find(item => item !== null)`: the first non-null entry, `None`
   * (`undefined`) when every entry is null.
   */
  function FirstNonNull<T>(items: seq<Option<T>>): (r: Option<T>)
    ensures r.None? <==> forall i :: 0 <= i < |items| ==> items[i].None?
  {
    if items == [] then None
    else if items[0].Some? then items[0]
    else FirstNonNull(items[1..])
  }

  /** A non-null entry preceded only by nulls is what `FirstNonNull` returns. */
  lemma {:induction false} FirstNonNullAt<T>(items: seq<Option<T>>, k: nat)
    requires k < |items| && items[k].Some?
    requires forall j :: 0 <= j < k ==> items[j].None?
    ensures FirstNonNull(items) == items[k]
  {
    if k > 0 {
      assert items[1..][k - 1] == items[k];
      FirstNonNullAt(items[1..], k - 1);
    }
  }

  /** A non-null result is some entry of the list preceded only by nulls. */
  lemma {:induction false} FirstNonNullIsFirst<T>(items: seq<Option<T>>)
    requires FirstNonNull(items).Some?
    ensures exists k :: 0 <= k < |items| && items[k] == FirstNonNull(items)
                        && forall j :: 0 <= j < k ==> items[j].None?
  {
    if items[0].None? {
      FirstNonNullIsFirst(items[1..]);
      var k :| 0 <= k < |items[1..]| && items[1..][k] == FirstNonNull(items[1..])
               && forall j :: 0 <= j < k ==> items[1..][j].None?;
      assert items[k + 1] == FirstNonNull(items);
      assert forall j :: 0 <= j < k + 1 ==> items[j].None? by {
        forall j | 0 <= j < k + 1 ensures items[j].None? {
          if j > 0 { assert items[j] == items[1..][j - 1]; }
        }
      }
    } else {
      assert items[0] == FirstNonNull(items);
    }
  }

  /** `images[0]?.url`. */
  function FirstImageUrl(images: seq<Image>): (r: Option<string>)
    ensures r.Some? <==> |images| > 0
    ensures r.Some? ==> r.value == images[0].url
  {
    if |images| > 0 then Some(images[0].url) else None
  }

  /**
   * `episode.images[0]?.url ?? showImage`: the episode's first image, else
   * the show's first image, else none.
   */
  function CoverImage(episode: Episode, show: Show): (r: Option<string>)
    ensures r.Some? <==> |episode.images| > 0 || |show.images| > 0
    ensures |episode.images| > 0 ==> r == Some(episode.images[0].url)
    ensures |episode.images| == 0 && |show.images| > 0 ==> r == Some(show.images[0].url)
  {
    match FirstImageUrl(episode.images)
    case Some(url) => Some(url)
    case None => FirstImageUrl(show.images)
  }

  /** What the screen shows above the description. */
  datatype Header = Header(
    episode: Episode,
    showName: string,
    publisher: string,
    showImage: Option<string>,
    coverImage: Option<string>,
    duration: string)

  /**
   * The screen's data for a route parameter, or `None` when the selected
   * show has no non-null episode (the source then throws on `episode.images`).
   */
  function ScreenHeader(fixtures: map<string, Show>, fixtureId: Option<string>): (r: Option<Header>)
    requires DefaultFixture in fixtures
    ensures var show := LookupFixture(fixtures, fixtureId);
      && (r.None? <==> forall i :: 0 <= i < |show.items| ==> show.items[i].None?)
      && (r.Some? ==>
            && Some(r.value.episode) == FirstNonNull(show.items)
            && r.value.showName == show.name && r.value.publisher == show.publisher
            && r.value.showImage == FirstImageUrl(show.images)
            && r.value.coverImage == CoverImage(r.value.episode, show)
            && r.value.duration == FormatDuration(r.value.episode.durationMs)
            && ParseClock(r.value.duration) == Some(r.value.episode.durationMs / 1000))
  {
    var show := LookupFixture(fixtures, fixtureId);
    match FirstNonNull(show.items)
    case None => None
    case Some(episode) =>
      FormatDurationRoundTrip(episode.durationMs);
      Some(Header(episode, show.name, show.publisher, FirstImageUrl(show.images),
                  CoverImage(episode, show), FormatDuration(episode.durationMs)))
  }

  // ---------------------------------------------------------------------------
  // Link handler
  // ---------------------------------------------------------------------------

  /**
   * The URL a tapped link is opened with: unchanged when it starts with
   * `http`, otherwise prefixed with `https://`.
   */
  function LinkUrl(href: string): (url: string)
    ensures StartsWith(url, "http")
    ensures StartsWith(href, "http") ==> url == href
    ensures !StartsWith(href, "http") ==> url == "https://" + href
  {
    if StartsWith(href, "http") then href else "https://" + href
  }

  /** Normalising twice is the same as once, and the original link is kept as the tail. */
  lemma LinkUrlIdempotent(href: string)
    ensures LinkUrl(LinkUrl(href)) == LinkUrl(href)
    ensures LinkUrl(href)[|LinkUrl(href)| - |href|..] == href
  {
  }
}
