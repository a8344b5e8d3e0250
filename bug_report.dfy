/**
 * The bug-report module: integration settings held in module state, browser and OS
 * classification from the navigator, assembly of the report record, the list of asset uploads,
 * and the merge of upload results into the report before it is posted to the webhook.
 */
module BugReport {
  import opened Wrappers
  import opened Text
  import opened Utils
  import Dom

  // ---------------------------------------------------------------- version tokens

  /** The characters `\s` matches in a JavaScript regular expression. */
  predicate IsJsSpace(c: char) {
    || c == '\t' || c == '\n' || c == '\U{000B}' || c == '\U{000C}' || c == '\r' || c == ' '
    || c == '\U{00A0}' || c == '\U{1680}' || ('\U{2000}' <= c <= '\U{200A}')
    || c == '\U{2028}' || c == '\U{2029}' || c == '\U{202F}' || c == '\U{205F}'
    || c == '\U{3000}' || c == '\U{FEFF}'
  }

  /** A separator: a slash or a white-space character. */
  predicate IsSeparator(c: char) {
    c == '/' || IsJsSpace(c)
  }

  /** A version character: a decimal digit or a dot. */
  predicate IsVersionChar(c: char) {
    ('0' <= c <= '9') || c == '.'
  }

  /** The length of the longest run of version characters starting at `i`. */
  function VersionRun(s: string, i: nat): (n: nat)
    requires i <= |s|
    ensures i + n <= |s|
    ensures forall k :: i <= k < i + n ==> IsVersionChar(s[k])
    ensures i + n < |s| ==> !IsVersionChar(s[i + n])
    decreases |s| - i
  {
    if i < |s| && IsVersionChar(s[i]) then 1 + VersionRun(s, i + 1) else 0
  }

  /**
   * A whole token `keyword[/\s][\d.]+` with the keyword in any ASCII case and a
   * maximal version part: what one match of the source's browser patterns looks like.
   */
  predicate IsVersionToken(t: string, keyword: string) {
    && |t| >= |keyword| + 2
    && OccursAtIgnoreCase(t, 0, keyword)
    && IsSeparator(t[|keyword|])
    && forall k :: |keyword| < k < |t| ==> IsVersionChar(t[k])
  }

  /** The length of the match of `keyword[/\s][\d.]+` (case-insensitive, greedy) at index `i`. */
  function MatchLength(s: string, i: nat, keyword: string): Option<nat>
    requires i <= |s|
  {
    if OccursAtIgnoreCase(s, i, keyword) && i + |keyword| < |s| && IsSeparator(s[i + |keyword|])
       && VersionRun(s, i + |keyword| + 1) > 0
    then Some(|keyword| + 1 + VersionRun(s, i + |keyword| + 1))
    else None
  }

  /** The match of `(k1|k2|...)[/\s]([\d.]+)` at index `i`: the alternatives are tried in order. */
  function TokenAt(s: string, i: nat, keywords: seq<string>): Option<string>
    requires i <= |s|
  {
    if keywords == [] then None
    else
      match MatchLength(s, i, keywords[0])
      case Some(n) => Some(s[i..i + n])
      case None => TokenAt(s, i, keywords[1..])
  }

  /** A match at `i` is a version token of one of the keywords, and it is the text at `i`. */
  lemma {:induction false} TokenAtIsToken(s: string, i: nat, keywords: seq<string>)
    requires i <= |s| && TokenAt(s, i, keywords).Some?
    ensures var t := TokenAt(s, i, keywords).value;
      && (exists k :: 0 <= k < |keywords| && IsVersionToken(t, keywords[k]))
      && i + |t| <= |s| && s[i..i + |t|] == t
  {
    var t := TokenAt(s, i, keywords).value;
    var kw := keywords[0];
    match MatchLength(s, i, kw)
    case Some(n) =>
      assert t == s[i..i + n];
      forall j | 0 <= j < |kw| ensures LowerAscii(t[j]) == kw[j] {
        assert t[j] == s[i + j];
      }
      forall k | |kw| < k < |t| ensures IsVersionChar(t[k]) {
        assert t[k] == s[i + k];
      }
      assert IsVersionToken(t, keywords[0]);
    case None =>
      TokenAtIsToken(s, i, keywords[1..]);
      var k :| 0 <= k < |keywords[1..]| && IsVersionToken(t, keywords[1..][k]);
      assert keywords[1..][k] == keywords[k + 1];
  }

  /** The leftmost match at or after index `from`. */
  function FirstTokenFrom(s: string, keywords: seq<string>, from: nat): Option<string>
    requires from <= |s|
    decreases |s| - from
  {
    match TokenAt(s, from, keywords)
    case Some(t) => Some(t)
    case None => if from == |s| then None else FirstTokenFrom(s, keywords, from + 1)
  }

  /** The scan finds nothing exactly when no index at or after `from` starts a match. */
  lemma {:induction false} FirstTokenNone(s: string, keywords: seq<string>, from: nat)
    requires from <= |s|
    ensures FirstTokenFrom(s, keywords, from).None? ==>
              forall i :: from <= i <= |s| ==> TokenAt(s, i, keywords).None?
    ensures (forall i :: from <= i <= |s| ==> TokenAt(s, i, keywords).None?) ==>
              FirstTokenFrom(s, keywords, from).None?
    decreases |s| - from
  {
    if TokenAt(s, from, keywords).Some? {
      assert FirstTokenFrom(s, keywords, from).Some?;
      assert !(forall i :: from <= i <= |s| ==> TokenAt(s, i, keywords).None?) by {
        assert from <= from <= |s| && !TokenAt(s, from, keywords).None?;
      }
    } else if from == |s| {
      assert FirstTokenFrom(s, keywords, from).None?;
    } else {
      assert FirstTokenFrom(s, keywords, from) == FirstTokenFrom(s, keywords, from + 1);
      FirstTokenNone(s, keywords, from + 1);
      assert (forall i :: from <= i <= |s| ==> TokenAt(s, i, keywords).None?) <==>
             (forall i :: from + 1 <= i <= |s| ==> TokenAt(s, i, keywords).None?);
    }
  }

  /** What the scan finds is the match at the leftmost index that starts one. */
  lemma {:induction false} FirstTokenLeftmost(s: string, keywords: seq<string>, from: nat) returns (i: nat)
    requires from <= |s| && FirstTokenFrom(s, keywords, from).Some?
    ensures from <= i <= |s| && TokenAt(s, i, keywords) == FirstTokenFrom(s, keywords, from)
    ensures forall j :: from <= j < i ==> TokenAt(s, j, keywords).None?
    decreases |s| - from
  {
    if TokenAt(s, from, keywords).Some? {
      i := from;
    } else {
      i := FirstTokenLeftmost(s, keywords, from + 1);
    }
  }

  /**
   * The first match of the keywords' alternation followed by a separator and a version, searched
   * over the whole string ignoring case; None where there is no match.
   */
  function FirstToken(s: string, keywords: seq<string>): Option<string> {
    FirstTokenFrom(s, keywords, 0)
  }

  /** No token can start where no character lower-cases to an initial of a keyword. */
  lemma NoTokenWithoutInitial(s: string, keywords: seq<string>)
    requires forall k :: 0 <= k < |keywords| ==> |keywords[k]| > 0
    requires forall i, k :: 0 <= i < |s| && 0 <= k < |keywords| ==> LowerAscii(s[i]) != keywords[k][0]
    ensures FirstToken(s, keywords).None?
  {
    forall i | 0 <= i <= |s| ensures TokenAt(s, i, keywords).None? {
      NoTokenAt(s, i, keywords);
    }
    FirstTokenNone(s, keywords, 0);
  }

  lemma {:induction false} NoTokenAt(s: string, i: nat, keywords: seq<string>)
    requires i <= |s|
    requires forall k :: 0 <= k < |keywords| ==> |keywords[k]| > 0
    requires forall j, k :: 0 <= j < |s| && 0 <= k < |keywords| ==> LowerAscii(s[j]) != keywords[k][0]
    ensures TokenAt(s, i, keywords).None?
  {
    if keywords != [] {
      if i < |s| {
        assert !OccursAtIgnoreCase(s, i, keywords[0]) by {
          assert LowerAscii(s[i + 0]) != keywords[0][0];
        }
      }
      NoTokenAt(s, i, keywords[1..]);
    }
  }

  // ---------------------------------------------------------------- browser and OS

  /** The browsers of the source's first test, and the two narrower patterns it falls back to. */
  const KnownBrowsers: seq<string> := ["firefox", "msie", "chrome", "safari", "opr", "trident"]
  const OperaBrowser: seq<string> := ["opr"]
  const ClassicBrowsers: seq<string> := ["firefox", "msie", "chrome", "safari"]

  /**
   * The browser name exactly as the source computes it; None where it throws a TypeError,
   * because it indexes the `null` that `match` returns when the narrower pattern finds nothing.
   */
  function BrowserNameAsWritten(appVersion: string, userAgent: string): (r: Option<string>)
    ensures r.None? ==>
              FirstToken(appVersion, KnownBrowsers).Some? &&
              !Contains(appVersion, "Edge") && !Contains(appVersion, "Trident")
    ensures r.None? && ContainsIgnoreCase(appVersion, "opr") ==> FirstToken(appVersion, OperaBrowser).None?
    ensures r.None? && !ContainsIgnoreCase(appVersion, "opr") ==> FirstToken(appVersion, ClassicBrowsers).None?
    ensures FirstToken(appVersion, KnownBrowsers).None? ==> r.Some?
  {
    if FirstToken(appVersion, KnownBrowsers).Some? then
      if Contains(appVersion, "Edge") then Some("edge")
      else if Contains(appVersion, "Trident") then Some("ie")
      else if ContainsIgnoreCase(appVersion, "opr") then FirstToken(appVersion, OperaBrowser)
      else FirstToken(appVersion, ClassicBrowsers)
    else if ContainsIgnoreCase(userAgent, "firefox") then Some("firefox")
    else Some("Unknown")
  }

  /** `trident/7` passes the source's first test: it is a version token of a known browser. */
  lemma TridentIsKnownBrowser(v: string)
    requires v == "trident/7"
    ensures FirstToken(v, KnownBrowsers).Some?
  {
    TridentTokenAtStart(v);
    forall k | 0 <= k < 5 ensures MatchLength(v, 0, KnownBrowsers[k]).None? {
      assert LowerAscii(v[0]) != KnownBrowsers[k][0];
    }
    assert TokenAt(v, 0, KnownBrowsers[5..]).Some?;
    assert TokenAt(v, 0, KnownBrowsers[4..]) == TokenAt(v, 0, KnownBrowsers[5..]);
    assert TokenAt(v, 0, KnownBrowsers[3..]) == TokenAt(v, 0, KnownBrowsers[4..]);
    assert TokenAt(v, 0, KnownBrowsers[2..]) == TokenAt(v, 0, KnownBrowsers[3..]);
    assert TokenAt(v, 0, KnownBrowsers[1..]) == TokenAt(v, 0, KnownBrowsers[2..]);
    assert TokenAt(v, 0, KnownBrowsers) == TokenAt(v, 0, KnownBrowsers[1..]);
  }

  /** `trident/7` starts with a Trident token. */
  lemma TridentTokenAtStart(v: string)
    requires v == "trident/7"
    ensures MatchLength(v, 0, "trident").Some?
  {
    assert OccursAtIgnoreCase(v, 0, "trident");
    assert VersionRun(v, 9) == 0;
    assert VersionRun(v, 8) == 1;
  }

  /**
   * The IE-style version string `trident/7` makes the source's browser detection throw: it
   * passes the first test, holds neither `Edge` nor `Trident` nor `opr`, and has no
   * `firefox|msie|chrome|safari` token, so the source indexes a `null` match.
   */
  lemma BrowserNameAsWrittenThrows(v: string)
    requires v == "trident/7"
    ensures BrowserNameAsWritten(v, "").None?
  {
    TridentIsKnownBrowser(v);
    NotContainedWithoutFirstChar(v, "Edge");
    NotContainedWithoutFirstChar(v, "Trident");
    NotContainedIgnoreCaseWithoutFirstChar(v, "opr");
    NoTokenWithoutInitial(v, ClassicBrowsers);
  }

  /** `Chrome/70 (Opr)` passes the source's first test with its Chrome token. */
  lemma OperaMarkedChromeIsKnownBrowser(v: string)
    requires v == "Chrome/70 (Opr)"
    ensures FirstToken(v, KnownBrowsers).Some?
  {
    assert LowerAscii(v[0]) == 'c';
    assert MatchLength(v, 0, "firefox").None? && MatchLength(v, 0, "msie").None?;
    ChromeTokenAtStart(v);
    assert TokenAt(v, 0, KnownBrowsers[2..]).Some?;
    assert TokenAt(v, 0, KnownBrowsers[1..]) == TokenAt(v, 0, KnownBrowsers[2..]);
    assert TokenAt(v, 0, KnownBrowsers) == TokenAt(v, 0, KnownBrowsers[1..]);
  }

  /** `Chrome/70 (Opr)` starts with a Chrome token. */
  lemma ChromeTokenAtStart(v: string)
    requires v == "Chrome/70 (Opr)"
    ensures MatchLength(v, 0, "chrome").Some?
  {
    assert OccursAtIgnoreCase(v, 0, "chrome");
    assert VersionRun(v, 9) == 0;
    assert VersionRun(v, 7) == 2;
  }

  /** In `Chrome/70 (Opr)` no `opr` is followed by a separator, so the Opera pattern finds nothing. */
  lemma OperaMarkedChromeHasNoOperaToken(v: string)
    requires v == "Chrome/70 (Opr)"
    ensures FirstToken(v, OperaBrowser).None?
  {
    forall i | 0 <= i <= |v| ensures TokenAt(v, i, OperaBrowser).None? {
      NoOperaTokenAt(v, i);
    }
    FirstTokenNone(v, OperaBrowser, 0);
  }

  /** Index by index: only two characters of `Chrome/70 (Opr)` are an `o`, and neither starts a token. */
  lemma NoOperaTokenAt(v: string, i: nat)
    requires v == "Chrome/70 (Opr)" && i <= |v|
    ensures TokenAt(v, i, OperaBrowser).None?
  {
    assert OperaBrowser[0] == "opr" && OperaBrowser[1..] == [];
    if i == 3 {
      assert !OccursAtIgnoreCase(v, i, "opr") by {
        assert LowerAscii(v[i + 1]) != "opr"[1];
      }
      assert MatchLength(v, i, "opr").None?;
    } else if i == 11 {
      assert v[14] == ')' && !IsSeparator(v[14]);
    } else if i < |v| {
      assert v[i] in "Crhme/70 (pr)";
      assert LowerAscii(v[i + 0]) != 'o';
    }
  }

  /**
   * The source throws whenever the version string passes the first test, holds neither `Edge`
   * nor `Trident`, mentions `opr` in any case, and has no Opera token.
   */
  lemma BrowserNameAsWrittenThrowsOnOperaBranch(appVersion: string, userAgent: string)
    requires FirstToken(appVersion, KnownBrowsers).Some?
    requires !Contains(appVersion, "Edge") && !Contains(appVersion, "Trident")
    requires ContainsIgnoreCase(appVersion, "opr") && FirstToken(appVersion, OperaBrowser).None?
    ensures BrowserNameAsWritten(appVersion, userAgent).None?
  {
  }

  /** `Chrome/70 (Opr)` holds neither `Edge` nor `Trident`, and mentions `opr` in its last word. */
  lemma OperaMarkedChromeTakesOperaBranch(v: string)
    requires v == "Chrome/70 (Opr)"
    ensures !Contains(v, "Edge") && !Contains(v, "Trident") && ContainsIgnoreCase(v, "opr")
  {
    NotContainedWithoutFirstChar(v, "Edge");
    NotContainedWithoutFirstChar(v, "Trident");
    assert OccursAtIgnoreCase(v, 11, "opr");
  }

  /**
   * An Opera-style version string whose `opr` is not followed by a separator also makes the
   * source throw: `Chrome/70 (Opr)` passes the first test with its Chrome token and, holding
   * neither `Edge` nor `Trident`, takes the Opera branch, where the Opera pattern finds nothing.
   */
  lemma BrowserNameAsWrittenThrowsOnOpera(v: string)
    requires v == "Chrome/70 (Opr)"
    ensures BrowserNameAsWritten(v, "").None?
  {
    OperaMarkedChromeIsKnownBrowser(v);
    OperaMarkedChromeTakesOperaBranch(v);
    OperaMarkedChromeHasNoOperaToken(v);
    BrowserNameAsWrittenThrowsOnOperaBranch(v, "");
  }

  /**
   * The browser name with the evident intent restored: where the narrower pattern finds no
   * token, the browser is reported as `Unknown`, the name the source uses for an unrecognised one.
   */
  function BrowserName(appVersion: string, userAgent: string): (r: string)
    ensures FirstToken(appVersion, KnownBrowsers).None? ==> r == "firefox" || r == "Unknown"
    ensures FirstToken(appVersion, KnownBrowsers).None? ==>
              (r == "firefox" <==> ContainsIgnoreCase(userAgent, "firefox"))
    ensures FirstToken(appVersion, KnownBrowsers).Some? && Contains(appVersion, "Edge") ==> r == "edge"
  {
    if FirstToken(appVersion, KnownBrowsers).Some? then
      if Contains(appVersion, "Edge") then "edge"
      else if Contains(appVersion, "Trident") then "ie"
      else if ContainsIgnoreCase(appVersion, "opr") then FirstToken(appVersion, OperaBrowser).GetOr("Unknown")
      else FirstToken(appVersion, ClassicBrowsers).GetOr("Unknown")
    else if ContainsIgnoreCase(userAgent, "firefox") then "firefox"
    else "Unknown"
  }

  /** The corrected name agrees with the source wherever the source does not throw. */
  lemma BrowserNameAgreesWithSource(appVersion: string, userAgent: string)
    ensures BrowserNameAsWritten(appVersion, userAgent).Some? ==>
              BrowserName(appVersion, userAgent) == BrowserNameAsWritten(appVersion, userAgent).value
    ensures BrowserNameAsWritten(appVersion, userAgent).None? ==> BrowserName(appVersion, userAgent) == "Unknown"
  {
  }

  /**
   * The browser name is `edge`, `ie`, `firefox`, `Unknown`, or a version token of a known
   * browser that occurs in the version string.
   */
  lemma BrowserNameKinds(appVersion: string, userAgent: string)
    ensures var name := BrowserName(appVersion, userAgent);
      || name in {"edge", "ie", "firefox", "Unknown"}
      || (Contains(appVersion, name) && exists k :: 0 <= k < |KnownBrowsers| && IsVersionToken(name, KnownBrowsers[k]))
  {
    var name := BrowserName(appVersion, userAgent);
    if FirstToken(appVersion, KnownBrowsers).Some? && !Contains(appVersion, "Edge") && !Contains(appVersion, "Trident") {
      if ContainsIgnoreCase(appVersion, "opr") {
        if FirstToken(appVersion, OperaBrowser).Some? {
          var i := FirstTokenLeftmost(appVersion, OperaBrowser, 0);
          TokenAtIsToken(appVersion, i, OperaBrowser);
          assert OccursAt(appVersion, i, name);
          assert IsVersionToken(name, KnownBrowsers[4]);
        }
      } else if FirstToken(appVersion, ClassicBrowsers).Some? {
        var i := FirstTokenLeftmost(appVersion, ClassicBrowsers, 0);
        TokenAtIsToken(appVersion, i, ClassicBrowsers);
        assert OccursAt(appVersion, i, name);
        var k :| 0 <= k < |ClassicBrowsers| && IsVersionToken(name, ClassicBrowsers[k]);
        assert IsVersionToken(name, KnownBrowsers[k]);
      }
    }
  }

  /** The OS markers in the order the source tests them; each later hit overrides the earlier ones. */
  const OsMarkers: seq<(string, string)> := [("Win", "Windows"), ("Mac", "MacOS"), ("X11", "UNIX"), ("Linux", "Linux")]

  /** The OS of the last marker in the list that the version string contains, searching from the back. */
  function LastMarker(appVersion: string, markers: seq<(string, string)>): string {
    if markers == [] then "Unknown OS"
    else if Contains(appVersion, markers[|markers| - 1].0) then markers[|markers| - 1].1
    else LastMarker(appVersion, markers[..|markers| - 1])
  }

  function OsName(appVersion: string): string {
    LastMarker(appVersion, OsMarkers)
  }

  /** The search from the back, written out for the source's four markers. */
  lemma OsNameCases(appVersion: string)
    ensures OsName(appVersion) ==
      if Contains(appVersion, "Linux") then "Linux"
      else if Contains(appVersion, "X11") then "UNIX"
      else if Contains(appVersion, "Mac") then "MacOS"
      else if Contains(appVersion, "Win") then "Windows"
      else "Unknown OS"
  {
    var m3 := OsMarkers[..3];
    var m2 := m3[..2];
    var m1 := m2[..1];
    assert m3 == [("Win", "Windows"), ("Mac", "MacOS"), ("X11", "UNIX")];
    assert m2 == [("Win", "Windows"), ("Mac", "MacOS")];
    assert m1 == [("Win", "Windows")];
    assert m1[..0] == [];
    assert LastMarker(appVersion, m1) == if Contains(appVersion, "Win") then "Windows" else "Unknown OS";
    assert LastMarker(appVersion, m2) == if Contains(appVersion, "Mac") then "MacOS" else LastMarker(appVersion, m1);
    assert LastMarker(appVersion, m3) == if Contains(appVersion, "X11") then "UNIX" else LastMarker(appVersion, m2);
  }

  /** The OS is unknown exactly when the version string contains none of the markers. */
  lemma OsUnknownIff(appVersion: string)
    ensures OsName(appVersion) == "Unknown OS" <==>
              forall k :: 0 <= k < |OsMarkers| ==> !Contains(appVersion, OsMarkers[k].0)
  {
    OsNameCases(appVersion);
    var none := !Contains(appVersion, "Win") && !Contains(appVersion, "Mac") &&
                !Contains(appVersion, "X11") && !Contains(appVersion, "Linux");
    if none {
      forall k | 0 <= k < |OsMarkers| ensures !Contains(appVersion, OsMarkers[k].0) {
        assert k == 0 || k == 1 || k == 2 || k == 3;
      }
    } else {
      assert OsMarkers[0].0 == "Win" && OsMarkers[1].0 == "Mac" && OsMarkers[2].0 == "X11" && OsMarkers[3].0 == "Linux";
    }
  }

  datatype Navigator = Navigator(appName: string, appVersion: string, userAgent: string, language: string)

  datatype BrowserData = BrowserData(browserName: string, os: string, navigatorInfo: Navigator, locale: string)

  /**
   * `getBrowserData()`: classifies the browser and the OS from `navigator.appVersion`
   * (and, for an unrecognised browser, `navigator.userAgent`) and reports the locale.
   */
  method GetBrowserData(nav: Navigator) returns (data: BrowserData)
    ensures data.browserName == BrowserName(nav.appVersion, nav.userAgent)
    ensures BrowserNameAsWritten(nav.appVersion, nav.userAgent).Some? ==>
            data.browserName == BrowserNameAsWritten(nav.appVersion, nav.userAgent).value
    ensures data.os == OsName(nav.appVersion)
    ensures data.navigatorInfo == nav && data.locale == nav.language
  {
    var nVer := nav.appVersion;
    var browserName := nav.appName;
    if FirstToken(nVer, KnownBrowsers).Some? {
      if Contains(nVer, "Edge") {
        browserName := "edge";
      } else if Contains(nVer, "Trident") {
        browserName := "ie";
      } else if ContainsIgnoreCase(nVer, "opr") {
        browserName := FirstToken(nVer, OperaBrowser).GetOr("Unknown");
      } else {
        browserName := FirstToken(nVer, ClassicBrowsers).GetOr("Unknown");
      }
    } else {
      browserName := "Unknown";
      if ContainsIgnoreCase(nav.userAgent, "firefox") {
        browserName := "firefox";
      }
    }

    var osName := "Unknown OS";
    if Contains(nVer, "Win") { osName := "Windows"; }
    if Contains(nVer, "Mac") { osName := "MacOS"; }
    if Contains(nVer, "X11") { osName := "UNIX"; }
    if Contains(nVer, "Linux") { osName := "Linux"; }

    OsNameCases(nVer);
    BrowserNameAgreesWithSource(nVer, nav.userAgent);
    data := BrowserData(browserName, osName, nav, nav.language);
  }

  // ---------------------------------------------------------------- the report

  /** Heap figures as `window.performance.memory` gives them. */
  datatype HeapInfo = HeapInfo(usedJSHeapSize: nat, jsHeapSizeLimit: nat)

  /** Memory in megabytes. */
  datatype MemoryInfo = MemoryInfo(used: real, total: real)

  /**
   * `getMemoryUsed()`: the heap in megabytes when the browser exposes the memory API
   * (None where the source returns `false`).
   */
  function GetMemoryUsed(heap: Option<HeapInfo>): (r: Option<MemoryInfo>)
    ensures r.Some? <==> heap.Some?
    ensures r.Some? ==> r.value.used * 1000000.0 == heap.value.usedJSHeapSize as real &&
                        r.value.total * 1000000.0 == heap.value.jsHeapSizeLimit as real
  {
    match heap
    case None => None
    case Some(h) => Some(MemoryInfo(h.usedJSHeapSize as real / 1000000.0, h.jsHeapSizeLimit as real / 1000000.0))
  }

  /** What the browser tells the report at the moment of submission. */
  datatype Environment = Environment(
    navigator: Navigator,
    href: string,                 // location.href
    now: int,                     // Date.now()
    innerWidth: nat,
    innerHeight: nat,
    devicePixelRatio: real,
    consoleLogJson: string,       // JSON.stringify of the captured console log
    localStorageJson: string,     // JSON.stringify(localStorage)
    heap: Option<HeapInfo>)

  /** The `email` and `comment` inputs of the report form. */
  datatype FormInput = FormInput(email: string, comment: string)

  /** A screenshot entry: the uploaded image's URL, or the upload response itself. */
  datatype Screenshot = ScreenshotUrl(url: string) | RawResponse(response: UploadResponse)

  /** The body of an upload response; `secure_url` may be missing. */
  datatype UploadData = UploadData(secureUrl: Option<string>)

  /** An upload response; a failed upload resolves to `null`. */
  datatype UploadResponse = NullResponse | Response(status: string, data: Option<UploadData>)

  /**
   * The report record. The last three fields are None until the upload results are merged in;
   * `networkLog` is Some(None) where the source assigns `undefined` to it.
   */
  datatype Report = Report(
    reportedAt: int,
    email: string,
    title: string,
    device: string,
    os: string,
    currentView: string,
    duration: int,
    locale: string,
    screenSize: string,
    density: real,
    consoleLog: string,
    localStorage: Option<string>,
    memory: Option<MemoryInfo>,
    screenshots: Option<seq<Screenshot>>,
    screenshotsText: Option<string>,
    networkLog: Option<Option<string>>)

  /** Some(s) with s non-empty: a truthy string. */
  predicate Truthy(s: Option<string>) {
    s.Some? && s.value != ""
  }

  /** The response reports an uploaded file with a usable URL. */
  predicate Uploaded(r: UploadResponse) {
    r.Response? && r.status == "OK" && r.data.Some? && Truthy(r.data.value.secureUrl)
  }

  function ScreenshotOf(r: UploadResponse): Screenshot {
    if Uploaded(r) then ScreenshotUrl(r.data.value.secureUrl.value) else RawResponse(r)
  }

  /**
   * The screenshot list: one entry per response, in order: the secure URL of a
   * successful upload, otherwise the response itself (so a failed upload stays `null`).
   */
  function Screenshots(responses: seq<UploadResponse>): (shots: seq<Screenshot>)
    ensures |shots| == |responses|
    ensures forall i :: 0 <= i < |responses| ==> (shots[i].ScreenshotUrl? <==> Uploaded(responses[i]))
    ensures forall i :: 0 <= i < |responses| && Uploaded(responses[i]) ==>
              shots[i] == ScreenshotUrl(responses[i].data.value.secureUrl.value) && shots[i].url != ""
    ensures forall i :: 0 <= i < |responses| && shots[i].RawResponse? ==> shots[i].response == responses[i]
  {
    seq(|responses|, i requires 0 <= i < |responses| => ScreenshotOf(responses[i]))
  }

  /**
   * How a template literal prints an entry: a URL as itself, `null` as `null`, and a
   * response object as `[object Object]`.
   */
  function ScreenshotString(shot: Screenshot): string {
    match shot
    case ScreenshotUrl(url) => url
    case RawResponse(NullResponse) => "null"
    case RawResponse(Response(_, _)) => "[object Object]"
  }

  /** `[Screenshot #n|entry]` */
  function ScreenshotLine(n: nat, shot: Screenshot): string {
    "[Screenshot #" + NatToString(n) + "|" + ScreenshotString(shot) + "]"
  }

  /** The lines of the screenshot list, numbered from 1. */
  function ScreenshotLines(shots: seq<Screenshot>): seq<string> {
    seq(|shots|, i requires 0 <= i < |shots| => ScreenshotLine(i + 1, shots[i]))
  }

  /** The screenshot text: the numbered lines joined with line breaks. */
  function ScreenshotsText(shots: seq<Screenshot>): string {
    Join(ScreenshotLines(shots), "\n")
  }

  /** An empty screenshot list gives an empty text. */
  lemma ScreenshotsTextEmpty()
    ensures ScreenshotsText([]) == ""
  {
  }

  /**
   * When no entry prints a line break, the text splits at its line breaks into one line per
   * entry, in order, the i-th (from 0) reading `[Screenshot #i+1|entry]`.
   */
  lemma ScreenshotsTextLines(shots: seq<Screenshot>)
    requires |shots| >= 1
    requires forall i :: 0 <= i < |shots| ==> '\n' !in ScreenshotString(shots[i])
    ensures var lines := Split(ScreenshotsText(shots), '\n');
      && |lines| == |shots|
      && forall i :: 0 <= i < |shots| ==> lines[i] == "[Screenshot #" + NatToString(i + 1) + "|" + ScreenshotString(shots[i]) + "]"
  {
    var lines := ScreenshotLines(shots);
    forall k | 0 <= k < |lines| ensures '\n' !in lines[k] {
      LineHasNoBreak(k + 1, shots[k]);
    }
    SplitJoin(lines, '\n');
  }

  lemma LineHasNoBreak(n: nat, shot: Screenshot)
    requires '\n' !in ScreenshotString(shot)
    ensures '\n' !in ScreenshotLine(n, shot)
  {
    var number := NatToString(n);
    assert forall j :: 0 <= j < |number| ==> number[j] != '\n';
  }

  /** Two successful uploads give the two numbered lines, in upload order. */
  lemma TwoScreenshotsText(url1: string, url2: string)
    ensures ScreenshotsText([ScreenshotUrl(url1), ScreenshotUrl(url2)]) ==
            "[Screenshot #1|" + url1 + "]" + "\n" + "[Screenshot #2|" + url2 + "]"
  {
    var lines := ScreenshotLines([ScreenshotUrl(url1), ScreenshotUrl(url2)]);
    assert NatToString(1) == "1" && NatToString(2) == "2";
    assert lines[0] == "[Screenshot #1|" + url1 + "]";
    assert lines[1] == "[Screenshot #2|" + url2 + "]";
    assert lines == ["[Screenshot #1|" + url1 + "]", "[Screenshot #2|" + url2 + "]"];
    assert lines[1..] == ["[Screenshot #2|" + url2 + "]"];
    assert Join(lines, "\n") == lines[0] + "\n" + Join(lines[1..], "\n");
  }

  /** The secure URL in the data of the log upload's response; None where the data or the URL is missing. */
  function NetworkLogOf(r: UploadResponse): Option<string>
    requires r.Response?
  {
    match r.data
    case None => None
    case Some(d) => d.secureUrl
  }

  /**
   * The `then` step of the submission: writes the screenshot list, its text, and, when a log
   * upload was made and answered, the network-log field; nothing else in the report changes.
   */
  function MergeUploads(report: Report, imageResponses: seq<UploadResponse>, logResponse: Option<UploadResponse>): (r: Report)
    ensures r.screenshots == Some(Screenshots(imageResponses))
    ensures r.screenshotsText == Some(ScreenshotsText(Screenshots(imageResponses)))
    ensures logResponse.Some? && logResponse.value.Response? ==> r.networkLog == Some(NetworkLogOf(logResponse.value))
    ensures !(logResponse.Some? && logResponse.value.Response?) ==> r.networkLog == report.networkLog
    ensures r.(screenshots := report.screenshots, screenshotsText := report.screenshotsText,
               networkLog := report.networkLog) == report
  {
    var shots := Screenshots(imageResponses);
    var withShots := report.(screenshots := Some(shots), screenshotsText := Some(ScreenshotsText(shots)));
    if logResponse.Some? && logResponse.value.Response? then
      withShots.(networkLog := Some(NetworkLogOf(logResponse.value)))
    else
      withShots
  }

  /** No screenshot, no extra image and no log source: an empty list, an empty text, no log field. */
  lemma MergeNothing(report: Report)
    requires report.networkLog.None?
    ensures MergeUploads(report, [], None).screenshots == Some([])
    ensures MergeUploads(report, [], None).screenshotsText == Some("")
    ensures MergeUploads(report, [], None).networkLog.None?
  {
  }

  // ---------------------------------------------------------------- uploads

  /** A file from the extra-image input. */
  datatype File = File(name: string)

  /** What an upload sends as its `file` field. */
  datatype Payload = ImageBlob(blob: Blob) | ChosenFile(file: File) | JsonBlob(text: string)

  /** The form an upload posts, and where it posts it. */
  datatype UploadRequest = UploadRequest(
    url: string, file: Payload, filename: string, uploadPreset: string, tags: string,
    extra: seq<(string, string)>)

  /** The integration settings; None where the source's object has no such property. */
  datatype IntegrationData = IntegrationData(
    zapierWebhookUrl: Option<string>,
    cloudinaryCloudName: Option<string>,
    cloudinaryUploadPreset: Option<string>)

  /** `uploadCloudinary(file, filename, extra)`: the request it sends. */
  function CloudinaryRequest(data: IntegrationData, file: Payload, filename: string, extra: seq<(string, string)>): UploadRequest {
    UploadRequest("https://api.cloudinary.com/v1_1/" + JsString(data.cloudinaryCloudName) + "/upload",
                  file, filename, JsString(data.cloudinaryUploadPreset), "instabug_screenshot", extra)
  }

  /** Keeps the present values, in order, as a filter on truthiness does. */
  function Present<T>(xs: seq<Option<T>>): (r: seq<T>)
    ensures |r| <= |xs|
    ensures forall k :: 0 <= k < |r| ==> Some(r[k]) in xs
    ensures forall k :: 0 <= k < |xs| && xs[k].Some? ==> xs[k].value in r
    ensures (forall k :: 0 <= k < |xs| ==> xs[k].Some?) ==>
              |r| == |xs| && forall k :: 0 <= k < |r| ==> Some(r[k]) == xs[k]
    ensures (forall k :: 0 <= k < |xs| ==> xs[k].None?) ==> r == []
  {
    if xs == [] then []
    else (if xs[0].Some? then [xs[0].value] else []) + Present(xs[1..])
  }

  /**
   * `uploadBugImages()`: the uploads started, in order: the screenshot when there is a drawing
   * canvas, then the first chosen extra file when there is one.
   */
  function UploadBugImages(data: IntegrationData, screenshot: Option<Blob>, extraFiles: seq<File>): (r: seq<UploadRequest>)
    ensures |r| == (if screenshot.Some? then 1 else 0) + (if |extraFiles| > 0 then 1 else 0)
    ensures screenshot.Some? ==> r[0] == CloudinaryRequest(data, ImageBlob(screenshot.value), "image.png", [])
    ensures |extraFiles| > 0 ==> r[|r| - 1] == CloudinaryRequest(data, ChosenFile(extraFiles[0]), "extra.png", [])
  {
    var shot := if screenshot.Some? then Some(CloudinaryRequest(data, ImageBlob(screenshot.value), "image.png", [])) else None;
    var extra := if |extraFiles| == 0 then None else Some(CloudinaryRequest(data, ChosenFile(extraFiles[0]), "extra.png", []));
    assert [shot, extra][1..] == [extra] && [extra][1..] == [];
    assert Present([extra]) == (if extra.Some? then [extra.value] else []);
    Present([shot, extra])
  }

  /**
   * The present values of a concatenation are those of each part, in order; with the cases of
   * `Present` on all-present and all-absent lists, this fixes the order of what is kept.
   */
  lemma {:induction false} PresentConcat<T>(a: seq<Option<T>>, b: seq<Option<T>>)
    ensures Present(a + b) == Present(a) + Present(b)
    decreases |a|
  {
    if a == [] {
      assert a + b == b;
    } else {
      assert (a + b)[0] == a[0] && (a + b)[1..] == a[1..] + b;
      PresentConcat(a[1..], b);
    }
  }

  /** `uploadLogFile()`: the log, serialised to JSON, sent as a raw resource. */
  function LogUploadRequest(data: IntegrationData, logJson: string): (r: UploadRequest)
    ensures r.file == JsonBlob(logJson) && r.filename == "network-logs.json"
    ensures r.extra == [("resource_type", "raw")]
    ensures forall file, filename, extra {:trigger CloudinaryRequest(data, file, filename, extra)} ::
              r.url == CloudinaryRequest(data, file, filename, extra).url &&
              r.uploadPreset == CloudinaryRequest(data, file, filename, extra).uploadPreset &&
              r.tags == CloudinaryRequest(data, file, filename, extra).tags
  {
    CloudinaryRequest(data, JsonBlob(logJson), "network-logs.json", [("resource_type", "raw")])
  }

  /** Every upload of one submission, images and log alike, goes to one Cloudinary endpoint with one preset and tag. */
  lemma UploadsShareEndpoint(data: IntegrationData, screenshot: Option<Blob>, extraFiles: seq<File>, logJson: string)
    ensures forall req :: req in UploadBugImages(data, screenshot, extraFiles) ==>
              req.url == LogUploadRequest(data, logJson).url &&
              req.uploadPreset == LogUploadRequest(data, logJson).uploadPreset &&
              req.tags == LogUploadRequest(data, logJson).tags
  {
    var reqs := UploadBugImages(data, screenshot, extraFiles);
    forall req | req in reqs
      ensures req.url == LogUploadRequest(data, logJson).url &&
              req.uploadPreset == LogUploadRequest(data, logJson).uploadPreset &&
              req.tags == LogUploadRequest(data, logJson).tags
    {
      var k :| 0 <= k < |reqs| && reqs[k] == req;
      if screenshot.Some? && k == 0 {
        assert req == CloudinaryRequest(data, ImageBlob(screenshot.value), "image.png", []);
      } else {
        assert req == CloudinaryRequest(data, ChosenFile(extraFiles[0]), "extra.png", []);
      }
    }
  }

  /** A caller-supplied function that returns the network log; only its presence matters here. */
  datatype LogSource = LogSource(handle: nat)

  /** The request posted to the webhook: the report, to the URL read when submission began. */
  datatype WebhookPost = WebhookPost(url: Option<string>, body: Report)

  /** How a submission ends: it throws before anything is sent, or it posts the report. */
  datatype Submission =
    | Aborted(error: DataUriError)
    | Posted(imageUploads: seq<UploadRequest>, logUpload: Option<UploadRequest>, post: WebhookPost)

  /** The fields `prepareBugReport` fills in, with the optional ones present only when they apply. */
  ghost predicate IsPreparedReport(r: Report, form: FormInput, env: Environment, startedAt: int, attachLocalStorage: bool) {
    && r.reportedAt == env.now
    && r.email == form.email
    && r.title == form.comment
    && r.device == BrowserName(env.navigator.appVersion, env.navigator.userAgent)
    && r.os == OsName(env.navigator.appVersion)
    && r.currentView == env.href
    && r.duration == ShortifyTime(env.now - startedAt)
    && r.locale == env.navigator.language
    && r.screenSize == NatToString(env.innerWidth) + "x" + NatToString(env.innerHeight)
    && r.density == env.devicePixelRatio
    && r.consoleLog == env.consoleLogJson
    && r.localStorage == (if attachLocalStorage then Some(env.localStorageJson) else None)
    && r.memory == GetMemoryUsed(env.heap)
    && r.screenshots.None? && r.screenshotsText.None? && r.networkLog.None?
  }

  // ---------------------------------------------------------------- module state

  /** The bug-report module's state: the integration settings, the local-storage switch, the log source. */
  class ReportConfig {
    /** `reportStartingTime`: when the module was loaded. */
    const reportStartingTime: int
    var integration: IntegrationData
    var attachLocalStorage: bool
    var logSource: Option<LogSource>

    constructor (loadTime: int)
      ensures reportStartingTime == loadTime
      ensures integration == IntegrationData(None, None, None)
      ensures attachLocalStorage && logSource.None?
    {
      reportStartingTime := loadTime;
      integration := IntegrationData(None, None, None);
      attachLocalStorage := true;
      logSource := None;
    }

    /** `getZapierHookUrl()` */
    function GetZapierHookUrl(): (r: Option<string>)
      reads this
      ensures r == integration.zapierWebhookUrl
    {
      integration.zapierWebhookUrl
    }

    /** `setZapierHookUrl(url)`: reading the URL back gives the one set. */
    method SetZapierHookUrl(webhookUrl: string)
      modifies this
      ensures GetZapierHookUrl() == Some(webhookUrl)
      ensures integration == old(integration).(zapierWebhookUrl := Some(webhookUrl))
      ensures attachLocalStorage == old(attachLocalStorage) && logSource == old(logSource)
    {
      integration := integration.(zapierWebhookUrl := Some(webhookUrl));
    }

    /** `setCloudinaryIntegration(cloudName, uploadPreset)` */
    method SetCloudinaryIntegration(cloudName: string, uploadPreset: string)
      modifies this
      ensures integration == old(integration).(cloudinaryCloudName := Some(cloudName), cloudinaryUploadPreset := Some(uploadPreset))
      ensures attachLocalStorage == old(attachLocalStorage) && logSource == old(logSource)
    {
      integration := integration.(cloudinaryCloudName := Some(cloudName), cloudinaryUploadPreset := Some(uploadPreset));
    }

    /** `disableLocalStorage()`: from now on reports carry no local-storage snapshot. */
    method DisableLocalStorage()
      modifies this
      ensures !attachLocalStorage
      ensures integration == old(integration) && logSource == old(logSource)
    {
      attachLocalStorage := false;
    }

    /** `setLogSource(source)`: replaces the log source, also with an absent one. */
    method SetLogSource(source: Option<LogSource>)
      modifies this
      ensures logSource == source
      ensures integration == old(integration) && attachLocalStorage == old(attachLocalStorage)
    {
      logSource := source;
    }

    /**
     * `prepareBugReport()`: the report built from the form and the environment; the
     * local-storage snapshot is present exactly when capture is enabled, and the memory
     * figures exactly when the browser exposes them (never as `false`).
     */
    method PrepareBugReport(form: FormInput, env: Environment) returns (report: Report)
      ensures report.localStorage.Some? <==> attachLocalStorage
      ensures report.localStorage.Some? ==> report.localStorage.value == env.localStorageJson
      ensures report.memory.Some? <==> env.heap.Some?
      ensures 1000 * report.duration <= env.now - reportStartingTime < 1000 * (report.duration + 1)
      ensures IsPreparedReport(report, form, env, reportStartingTime, attachLocalStorage)
    {
      var device := GetBrowserData(env.navigator);
      var os := GetBrowserData(env.navigator);
      var locale := GetBrowserData(env.navigator);
      report := Report(
        env.now, form.email, form.comment, device.browserName, os.os, env.href,
        ShortifyTime(env.now - reportStartingTime), locale.locale,
        NatToString(env.innerWidth) + "x" + NatToString(env.innerHeight),
        env.devicePixelRatio, env.consoleLogJson, None, None, None, None, None);

      if attachLocalStorage {
        report := report.(localStorage := Some(env.localStorageJson));
      }

      if GetMemoryUsed(env.heap).Some? {
        report := report.(memory := GetMemoryUsed(env.heap));
      }
    }

    /**
     * `submitBugReport()`: prepares the report, starts the image uploads (converting the
     * drawing canvas first), switches the page to the loading window, uploads the log when a log
     * source is set, merges the upload results into the report once all have settled, posts it
     * to the webhook URL read at the start, and then shows the thank-you page whether the post
     * succeeds or not. `respond` gives the settled result of each upload.
     */
    method SubmitBugReport(
      page: Dom.Page, form: FormInput, env: Environment,
      canvasDataUrl: Option<string>, extraFiles: seq<File>, logJson: string,
      atob: string -> Option<seq<CodeUnit>>, unescape: string -> seq<CodeUnit>,
      respond: UploadRequest -> UploadResponse)
      returns (outcome: Submission)
      requires page.Valid()
      modifies page
      ensures page.Valid() && page.keydownListeners == old(page.keydownListeners)
      ensures outcome.Aborted? <==> canvasDataUrl.Some? && BlobOf(canvasDataUrl.value, atob, unescape).Failure?
      ensures outcome.Aborted? ==>
        outcome.error == BlobOf(canvasDataUrl.value, atob, unescape).error && unchanged(page)
      ensures outcome.Posted? ==>
        var screenshot := if canvasDataUrl.Some? then Some(BlobOf(canvasDataUrl.value, atob, unescape).value) else None;
        var images := UploadBugImages(integration, screenshot, extraFiles);
        var logUpload := if logSource.Some? then Some(LogUploadRequest(integration, logJson)) else None;
        var responses := seq(|images|, i requires 0 <= i < |images| => respond(images[i]));
        var logResponse := if logUpload.Some? then Some(respond(logUpload.value)) else None;
        && outcome.imageUploads == images
        && outcome.logUpload == logUpload
        && outcome.post.url == integration.zapierWebhookUrl
        && IsPreparedReport(outcome.post.body.(screenshots := None, screenshotsText := None, networkLog := None),
                            form, env, reportStartingTime, attachLocalStorage)
        && outcome.post.body.screenshots == Some(Screenshots(responses))
        && outcome.post.body.screenshotsText == Some(ScreenshotsText(Screenshots(responses)))
        && (if logResponse.Some? && logResponse.value.Response?
            then outcome.post.body.networkLog == Some(NetworkLogOf(logResponse.value))
            else outcome.post.body.networkLog.None?)
        && page.sdkElements == old(page.sdkElements) && page.bodyClasses == old(page.bodyClasses)
        && page.elements == Dom.Display(Dom.Display(Dom.Display(Dom.Display(old(page.elements),
                              Dom.FormContainer, false), Dom.LoadingWindow, true), Dom.LoadingWindow, false),
                              Dom.ThankYouPage, true)
    {
      var bugReport := PrepareBugReport(form, env);

      // uploadBugImages(): the screenshot is converted before anything is sent
      var screenshot: Option<Blob> := None;
      if canvasDataUrl.Some? {
        var blob := DataUriToBlob(canvasDataUrl.value, atob, unescape);
        if blob.Failure? {
          return Aborted(blob.error);
        }
        screenshot := Some(blob.value);
      }
      var images := UploadBugImages(integration, screenshot, extraFiles);
      var zapierWebhookUrl := integration.zapierWebhookUrl;

      page.Hide(Dom.FormContainer);
      page.Show(Dom.LoadingWindow);

      var logUpload: Option<UploadRequest> := None;
      if logSource.Some? {
        logUpload := Some(LogUploadRequest(integration, logJson));
      }

      // Promise.all: every upload has settled before the report is merged and posted
      var imageResponses := seq(|images|, i requires 0 <= i < |images| => respond(images[i]));
      var logResponse := if logUpload.Some? then Some(respond(logUpload.value)) else None;
      bugReport := MergeUploads(bugReport, imageResponses, logResponse);

      // the post's success and failure both end in the thank-you page
      page.Hide(Dom.LoadingWindow);
      page.Show(Dom.ThankYouPage);
      return Posted(images, logUpload, WebhookPost(zapierWebhookUrl, bugReport));
    }
  }
}
