/** The string helpers of the library module: slug generation, relative-time bucketing and
    the two Google Maps list URL helpers. `new URL(...)` is an input: `None` when the URL
    constructor throws, otherwise the parsed host name and path. */
module Helpers {
  import opened Wrappers
  import opened Text

  // ===== generateSlug =====

  /** `toLowerCase` of one character, exact wherever the result can survive the filter that
      follows: ASCII capitals, KELVIN SIGN (to `k`) and LATIN CAPITAL LETTER I WITH DOT ABOVE
      (to `i` and a combining dot). Every other character is kept, and every such character
      whose real lower case differs lowers to characters outside `a`-`z`, `0`-`9`, ` ` and `-`. */
  function LowerChar(c: char): (r: string)
    ensures 'A' <= c <= 'Z' ==> r == [((c as int) + 32) as char]
    ensures !('A' <= c <= 'Z') && c != '\U{212A}' && c != '\U{0130}' ==> r == [c]
  {
    if 'A' <= c <= 'Z' then [((c as int) + 32) as char]
    else if c == '\U{212A}' then "k"
    else if c == '\U{0130}' then "i\U{0307}"
    else [c]
  }

  /** `String.prototype.toLowerCase`, character by character. */
  function Lower(s: string): string
    decreases |s|
  {
    if s == [] then [] else LowerChar(s[0]) + Lower(s[1..])
  }

  /** The characters `/[^a-z0-9 -]/g` does not remove. */
  predicate Kept(c: char) {
    'a' <= c <= 'z' || IsDigit(c) || c == ' ' || c == '-'
  }

  /** `.replace(/[^a-z0-9 -]/g, '')`. */
  function RemoveSpecial(s: string): (r: string)
    ensures forall i :: 0 <= i < |r| ==> Kept(r[i])
    ensures forall i :: 0 <= i < |s| && Kept(s[i]) ==> s[i] in r
    decreases |s|
  {
    if s == [] then []
    else if Kept(s[0]) then [s[0]] + RemoveSpecial(s[1..])
    else RemoveSpecial(s[1..])
  }

  /** The filter keeps every kept character as often as it occurs. */
  lemma {:induction false} RemoveSpecialKeepsCounts(s: string, c: char)
    requires Kept(c)
    ensures multiset(RemoveSpecial(s))[c] == multiset(s)[c]
    decreases |s|
  {
    if s != [] {
      RemoveSpecialKeepsCounts(s[1..], c);
      assert s == [s[0]] + s[1..];
    }
  }

  /** The two run patterns of `generateSlug`: `\s+` and `-+`. */
  datatype RunClass = Whitespace | Hyphens

  predicate InClass(c: char, k: RunClass) {
    match k
    case Whitespace => IsJsWhitespace(c)
    case Hyphens => c == '-'
  }

  /** `.replace(/\s+/g, '-')` or `.replace(/-+/g, '-')`: every maximal run of class-`k`
      characters becomes one hyphen; `inRun` says the previous character was in such a run. */
  function CollapseRuns(s: string, k: RunClass, inRun: bool): string
    decreases |s|
  {
    if s == [] then []
    else if InClass(s[0], k) then
      (if inRun then [] else "-") + CollapseRuns(s[1..], k, true)
    else [s[0]] + CollapseRuns(s[1..], k, false)
  }

  function TrimStart(s: string): string
    decreases |s|
  {
    if s != [] && IsJsWhitespace(s[0]) then TrimStart(s[1..]) else s
  }

  function TrimEnd(s: string): string
    decreases |s|
  {
    if s != [] && IsJsWhitespace(s[|s| - 1]) then TrimEnd(s[..|s| - 1]) else s
  }

  /** `String.prototype.trim`. */
  function Trim(s: string): string {
    TrimEnd(TrimStart(s))
  }

  /** The string `generateSlug` builds before its final `trim`. */
  function SlugBeforeTrim(title: string): string {
    CollapseRuns(CollapseRuns(RemoveSpecial(Lower(title)), Whitespace, false), Hyphens, false)
  }

  /** `generateSlug(title)`. */
  function GenerateSlug(title: string): string {
    Trim(SlugBeforeTrim(title))
  }

  predicate IsSlugChar(c: char) {
    'a' <= c <= 'z' || IsDigit(c) || c == '-'
  }

  ghost predicate SlugChars(s: string) {
    forall i :: 0 <= i < |s| ==> IsSlugChar(s[i])
  }

  ghost predicate NoDoubleHyphen(s: string) {
    forall i :: 0 <= i < |s| - 1 ==> !(s[i] == '-' && s[i + 1] == '-')
  }

  lemma {:induction false} CollapseWhitespaceGivesSlugChars(s: string, inRun: bool)
    requires forall i :: 0 <= i < |s| ==> Kept(s[i])
    ensures SlugChars(CollapseRuns(s, Whitespace, inRun))
    decreases |s|
  {
    if s != [] {
      CollapseWhitespaceGivesSlugChars(s[1..], !InClass(s[0], Whitespace) == false);
      CollapseWhitespaceGivesSlugChars(s[1..], false);
      CollapseWhitespaceGivesSlugChars(s[1..], true);
    }
  }

  lemma {:induction false} CollapseHyphensKeepsSlugChars(s: string, inRun: bool)
    requires SlugChars(s)
    ensures SlugChars(CollapseRuns(s, Hyphens, inRun))
    decreases |s|
  {
    if s != [] {
      CollapseHyphensKeepsSlugChars(s[1..], s[0] == '-');
    }
  }

  /** After `/-+/g` there is no `--`, and inside a run the output cannot start with `-`. */
  lemma {:induction false} CollapseHyphensNoDouble(s: string, inRun: bool)
    ensures var r := CollapseRuns(s, Hyphens, inRun);
      NoDoubleHyphen(r) && (inRun ==> r == [] || r[0] != '-')
    decreases |s|
  {
    if s != [] {
      var tail := CollapseRuns(s[1..], Hyphens, s[0] == '-');
      CollapseHyphensNoDouble(s[1..], s[0] == '-');
      var r := CollapseRuns(s, Hyphens, inRun);
      if s[0] == '-' {
        assert r == (if inRun then [] else "-") + tail;
      } else {
        assert r == [s[0]] + tail;
      }
    }
  }

  lemma {:induction false} TrimKeepsNonBlank(s: string)
    requires forall i :: 0 <= i < |s| ==> !IsJsWhitespace(s[i])
    ensures Trim(s) == s
  {
    assert TrimStart(s) == s;
    assert TrimEnd(s) == s;
  }

  lemma SlugCharsAreNotBlank(s: string)
    requires SlugChars(s)
    ensures forall i :: 0 <= i < |s| ==> !IsJsWhitespace(s[i])
  {
  }

  lemma {:induction false} SlugBeforeTrimShape(title: string)
    ensures SlugChars(SlugBeforeTrim(title)) && NoDoubleHyphen(SlugBeforeTrim(title))
  {
    var stripped := RemoveSpecial(Lower(title));
    var spaced := CollapseRuns(stripped, Whitespace, false);
    CollapseWhitespaceGivesSlugChars(stripped, false);
    CollapseHyphensKeepsSlugChars(spaced, false);
    CollapseHyphensNoDouble(spaced, false);
  }

  /** The final `trim` never changes anything: no white space survives the two replacements,
      so leading and trailing hyphens stay. */
  lemma {:induction false} TrimIsNoOp(title: string)
    ensures GenerateSlug(title) == SlugBeforeTrim(title)
  {
    SlugBeforeTrimShape(title);
    SlugCharsAreNotBlank(SlugBeforeTrim(title));
    TrimKeepsNonBlank(SlugBeforeTrim(title));
  }

  /** `generateSlug` yields only `a`-`z`, `0`-`9` and `-`, and never two hyphens in a row. */
  lemma {:induction false} GenerateSlugShape(title: string)
    ensures SlugChars(GenerateSlug(title))
    ensures NoDoubleHyphen(GenerateSlug(title))
  {
    TrimIsNoOp(title);
    SlugBeforeTrimShape(title);
  }

  lemma {:induction false} CollapseWithoutClassIsIdentity(s: string, k: RunClass, inRun: bool)
    requires forall i :: 0 <= i < |s| ==> !InClass(s[i], k)
    ensures CollapseRuns(s, k, inRun) == s
    decreases |s|
  {
    if s != [] {
      CollapseWithoutClassIsIdentity(s[1..], k, false);
      assert s == [s[0]] + s[1..];
    }
  }

  lemma {:induction false} CollapseHyphensIdentity(s: string, inRun: bool)
    requires NoDoubleHyphen(s)
    requires inRun ==> s == [] || s[0] != '-'
    ensures CollapseRuns(s, Hyphens, inRun) == s
    decreases |s|
  {
    if s != [] {
      assert NoDoubleHyphen(s[1..]) by {
        forall i | 0 <= i < |s[1..]| - 1 ensures !(s[1..][i] == '-' && s[1..][i + 1] == '-') {
          assert s[1..][i] == s[i + 1] && s[1..][i + 1] == s[i + 2];
        }
      }
      CollapseHyphensIdentity(s[1..], s[0] == '-');
      assert s == [s[0]] + s[1..];
    }
  }

  lemma {:induction false} RemoveSpecialIdentity(s: string)
    requires forall i :: 0 <= i < |s| ==> Kept(s[i])
    ensures RemoveSpecial(s) == s
    decreases |s|
  {
    if s != [] {
      RemoveSpecialIdentity(s[1..]);
      assert s == [s[0]] + s[1..];
    }
  }

  lemma {:induction false} LowerKeepsSlugChars(s: string)
    requires SlugChars(s)
    ensures Lower(s) == s
    decreases |s|
  {
    if s != [] {
      LowerKeepsSlugChars(s[1..]);
      assert s == [s[0]] + s[1..];
    }
  }

  /** A slug is a fixed point: `generateSlug(generateSlug(t)) == generateSlug(t)`. */
  lemma {:induction false} GenerateSlugIdempotent(title: string)
    ensures GenerateSlug(GenerateSlug(title)) == GenerateSlug(title)
  {
    var u := GenerateSlug(title);
    GenerateSlugShape(title);
    LowerKeepsSlugChars(u);
    RemoveSpecialIdentity(u);
    CollapseWithoutClassIsIdentity(u, Whitespace, false);
    CollapseHyphensIdentity(u, false);
    assert SlugBeforeTrim(u) == u;
    TrimIsNoOp(u);
  }

  /** Surrounding spaces turn into hyphens that the final `trim` leaves in place. */
  lemma SpacedTitleKeepsHyphens()
    ensures GenerateSlug(" a ") == "-a-"
  {
    assert Lower(" a ") == " a " by {
      assert Lower("") == "";
      assert Lower(" ") == " ";
      assert Lower("a ") == "a ";
    }
    assert RemoveSpecial(" a ") == " a ";
    assert CollapseRuns(" a ", Whitespace, false) == "-a-";
    assert CollapseRuns("-a-", Hyphens, false) == "-a-";
    TrimIsNoOp(" a ");
  }

  // ===== formatRelativeTime =====

  /** What `formatRelativeTime` shows; `AbsoluteDate` is the `formatDate(date)` fallback. */
  datatype RelativeTime =
    | JustNow
    | MinutesAgo(minutes: int)
    | HoursAgo(hours: int)
    | DaysAgo(days: int)
    | AbsoluteDate(dateMs: int)

  /** `Math.floor((now.getTime() - date.getTime()) / 1000)`. */
  function ElapsedSeconds(nowMs: int, dateMs: int): int {
    (nowMs - dateMs) / 1000
  }

  /** `formatRelativeTime(date)` at clock reading `nowMs`: each bucket shows the whole number of
      units elapsed, which is at least 1 and below the next unit. */
  function FormatRelativeTime(nowMs: int, dateMs: int): (r: RelativeTime)
    ensures var d := ElapsedSeconds(nowMs, dateMs);
      && (r.JustNow? <==> d < 60)
      && (r.MinutesAgo? <==> 60 <= d < 3600)
      && (r.HoursAgo? <==> 3600 <= d < 86400)
      && (r.DaysAgo? <==> 86400 <= d < 2592000)
      && (r.AbsoluteDate? <==> 2592000 <= d)
      && (r.MinutesAgo? ==> 1 <= r.minutes <= 59 && r.minutes * 60 <= d < (r.minutes + 1) * 60)
      && (r.HoursAgo? ==> 1 <= r.hours <= 23 && r.hours * 3600 <= d < (r.hours + 1) * 3600)
      && (r.DaysAgo? ==> 1 <= r.days <= 29 && r.days * 86400 <= d < (r.days + 1) * 86400)
      && (r.AbsoluteDate? ==> r.dateMs == dateMs)
  {
    var d := ElapsedSeconds(nowMs, dateMs);
    if d < 60 then JustNow
    else if d < 3600 then MinutesAgo(d / 60)
    else if d < 86400 then HoursAgo(d / 3600)
    else if d < 2592000 then DaysAgo(d / 86400)
    else AbsoluteDate(dateMs)
  }

  /** The text of the relative buckets (`formatDate` is not modelled). */
  function RelativeText(r: RelativeTime): string
    requires !r.AbsoluteDate?
  {
    match r
    case JustNow => "Just now"
    case MinutesAgo(m) => (if m >= 0 then NatToString(m) else "") + "m ago"
    case HoursAgo(h) => (if h >= 0 then NatToString(h) else "") + "h ago"
    case DaysAgo(n) => (if n >= 0 then NatToString(n) else "") + "d ago"
  }

  // ===== Google Maps list URLs =====

  datatype ParsedUrl = ParsedUrl(hostname: string, pathname: string)

  /** `parts.findIndex(part => part === seg)`. */
  function FindIndex(parts: seq<string>, seg: string): (r: int)
    ensures -1 <= r < |parts|
    ensures r >= 0 ==> parts[r] == seg && forall j :: 0 <= j < r ==> parts[j] != seg
    ensures r == -1 ==> forall j :: 0 <= j < |parts| ==> parts[j] != seg
    decreases |parts|
  {
    if parts == [] then -1
    else if parts[0] == seg then 0
    else
      var k := FindIndex(parts[1..], seg);
      if k == -1 then -1 else k + 1
  }

  /** `extractGoogleMapsListId`: the path segment right after the first `list` segment, when
      there is one and it is not empty. */
  function ExtractGoogleMapsListId(url: Option<ParsedUrl>): (r: Option<string>)
    ensures r.Some? ==> r.value != "" && '/' !in r.value
    ensures r.Some? ==> (url.Some? &&
      var parts := Split(url.value.pathname, '/');
      var k := FindIndex(parts, "list");
      0 <= k && k + 1 < |parts| && parts[k + 1] == r.value)
  {
    match url
    case None => None
    case Some(u) =>
      var parts := Split(u.pathname, '/');
      var k := FindIndex(parts, "list");
      if k != -1 && k + 1 < |parts| && parts[k + 1] != "" then Some(parts[k + 1]) else None
  }

  /** A path made of segments none of which is `list`, then `list`, a non-empty id, and any
      further segments yields that id. */
  lemma ExtractFromListPath(host: string, before: seq<string>, id: string, after: seq<string>)
    requires forall i :: 0 <= i < |before| ==> before[i] != "list" && '/' !in before[i]
    requires id != "" && '/' !in id
    requires forall i :: 0 <= i < |after| ==> '/' !in after[i]
    ensures ExtractGoogleMapsListId(Some(ParsedUrl(host, Join(before + ["list", id] + after, '/')))) == Some(id)
  {
    ListPathSegments(before, id, after);
  }

  /** The segments of such a path, and where `list` is first found among them. */
  lemma ListPathSegments(before: seq<string>, id: string, after: seq<string>)
    requires forall i :: 0 <= i < |before| ==> before[i] != "list" && '/' !in before[i]
    requires '/' !in id
    requires forall i :: 0 <= i < |after| ==> '/' !in after[i]
    ensures var parts := before + ["list", id] + after;
      Split(Join(parts, '/'), '/') == parts && FindIndex(parts, "list") == |before| &&
      |before| + 1 < |parts| && parts[|before| + 1] == id
  {
    var parts := before + ["list", id] + after;
    NoSlashInSegments(before, id, after);
    SplitJoin(parts, '/');
    assert parts[..|before|] == before;
    FindFirstAfterPrefix(before, parts, "list");
  }

  lemma NoSlashInSegments(before: seq<string>, id: string, after: seq<string>)
    requires forall i :: 0 <= i < |before| ==> '/' !in before[i]
    requires '/' !in id
    requires forall i :: 0 <= i < |after| ==> '/' !in after[i]
    ensures var parts := before + ["list", id] + after;
      forall i :: 0 <= i < |parts| ==> '/' !in parts[i]
  {
    var parts := before + ["list", id] + after;
    forall i | 0 <= i < |parts| ensures '/' !in parts[i] {
      if i < |before| {
        assert parts[i] == before[i];
      } else if i >= |before| + 2 {
        assert parts[i] == after[i - |before| - 2];
      }
    }
  }

  lemma {:induction false} FindFirstAfterPrefix(before: seq<string>, parts: seq<string>, seg: string)
    requires |before| < |parts| && parts[..|before|] == before && parts[|before|] == seg
    requires forall i :: 0 <= i < |before| ==> before[i] != seg
    ensures FindIndex(parts, seg) == |before|
    decreases |before|
  {
    if before != [] {
      assert parts[0] == before[0];
      assert parts[1..][..|before| - 1] == before[1..];
      FindFirstAfterPrefix(before[1..], parts[1..], seg);
    }
  }

  /** `isValidGoogleMapsListUrl`: false when the URL does not parse. */
  predicate IsValidGoogleMapsListUrl(url: Option<ParsedUrl>) {
    match url
    case None => false
    case Some(u) => Contains(u.hostname, "google.com") && Contains(u.pathname, "/maps/") && Contains(u.pathname, "/list/")
  }

  /** The two helpers disagree on a list URL with nothing after `/list/`: it is valid, but no
      id can be extracted from it. */
  lemma ValidListUrlWithoutId()
    ensures IsValidGoogleMapsListUrl(Some(ParsedUrl("google.com", "/maps/list/")))
    ensures ExtractGoogleMapsListId(Some(ParsedUrl("google.com", "/maps/list/"))) == None
  {
    EmptyListPathIsValid();
    EmptyListPathHasNoId();
  }

  lemma EmptyListPathIsValid()
    ensures IsValidGoogleMapsListUrl(Some(ParsedUrl("google.com", "/maps/list/")))
  {
    var path := "/maps/list/";
    ContainsAt("google.com", "google.com", 0);
    assert path[0..6] == "/maps/";
    ContainsAt(path, "/maps/", 0);
    assert path[5..11] == "/list/";
    ContainsAt(path, "/list/", 5);
  }

  lemma EmptyListPathHasNoId()
    ensures ExtractGoogleMapsListId(Some(ParsedUrl("google.com", "/maps/list/"))) == None
  {
    var parts := ["", "maps", "list", ""];
    NoSlashInFour(parts);
    SplitJoin(parts, '/');
    assert Join(parts, '/') == "/maps/list/";
    assert FindIndex(parts, "list") == 2;
  }

  lemma NoSlashInFour(parts: seq<string>)
    requires parts == ["", "maps", "list", ""]
    ensures forall i :: 0 <= i < |parts| ==> '/' !in parts[i]
  {
  }
}
