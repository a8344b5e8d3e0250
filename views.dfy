/**
 * The widget's views: placeholder translation of its templates, the extra-image check, the
 * extension download choice, and the window transitions on the page.
 */
module Views {
  import opened Wrappers
  import opened Text
  import opened BugReport
  import opened Templates
  import Dom

  // ---------------------------------------------------------------- translation

  /** The translation table; `translate` reads `current`, and `initSDK` may replace it wholesale. */
  class Translation {
    var current: map<string, string>

    /** The table the module ships with. */
    constructor ()
      ensures current == DefaultTable
    {
      current := DefaultTable;
    }
  }

  /** The shipped English table. It has no `browserNotSupported` entry. */
  const DefaultTable: map<string, string> := map[
    "title" := "Bug report",
    "downloadPlugin" := "Download the plugin for better screenshots!",
    "hint" := "You can draw on the screen!",
    "extraImage" := "Extra image",
    "submitBug" := "Submit Bug",
    "cancel" := "Cancel",
    "emailPlaceholder" := "Email",
    "commentPlaceholder" := "What went wrong?",
    "pleaseWait" := "Please Wait",
    "submitting" := "We are submitting your bug ...",
    "thankYou" := "Thank You",
    "reported" := "Your bug has been reported.",
    "close" := "Close"]

  /** With the shipped table, `%close%` reads `Close`. */
  lemma TranslateKnownKey()
    ensures Translate("<b>%close%</b>", DefaultTable) == "<b>Close</b>"
  {
    var entry := TableEntry(DefaultTable);
    var page := [Literal("<b>"), Placeholder("close"), Literal("</b>")];
    assert WellFormed(page);
    assert Render(page) + "" == "<b>%close%</b>";
    SubstitutePieces(page, "", entry);
    assert Lookup(DefaultTable, "close") == Some("Close");
    assert Fill(page, entry) == "<b>Close</b>";
  }

  /** A placeholder whose key the table lacks reads `undefined`. */
  lemma TranslateMissingKey(key: string, table: map<string, string>)
    requires '%' !in key && key !in table
    ensures Translate("%" + key + "%", table) == "undefined"
  {
    assert "%" + key + "%" + "" == "%" + key + "%";
    SubstitutePlaceholderPrefix(key, "", TableEntry(table));
  }

  // ---------------------------------------------------------------- extra image

  /** `s` ends with the lower-case ASCII pattern `p`, ignoring ASCII case. */
  predicate EndsWithIgnoreCase(s: string, p: string) {
    |p| <= |s| && OccursAtIgnoreCase(s, |s| - |p|, p)
  }

  /** The image test: the name ends with a dot and one of five extensions, ignoring case. */
  predicate IsImage(name: string)
    ensures IsImage(name) ==> |name| >= 4 && name[|name| - 4] == '.'
  {
    EndsWithDot(name, ".png");
    EndsWithDot(name, ".gif");
    EndsWithDot(name, ".jpg");
    EndsWithDot(name, ".bmp");
    EndsWithDot(name, ".pdf");
    || EndsWithIgnoreCase(name, ".png") || EndsWithIgnoreCase(name, ".gif")
    || EndsWithIgnoreCase(name, ".jpg") || EndsWithIgnoreCase(name, ".bmp")
    || EndsWithIgnoreCase(name, ".pdf")
  }

  /** A name that ends with a suffix starting with a dot has that dot at the suffix's place. */
  lemma EndsWithDot(name: string, suffix: string)
    requires |suffix| > 0 && suffix[0] == '.'
    ensures EndsWithIgnoreCase(name, suffix) ==> name[|name| - |suffix|] == '.'
  {
    if EndsWithIgnoreCase(name, suffix) {
      assert LowerAscii(name[|name| - |suffix| + 0]) == suffix[0];
    }
  }

  /** ASCII lower-casing of a whole string. */
  function LowerAsciiString(s: string): (r: string)
    ensures |r| == |s| && forall k :: 0 <= k < |s| ==> r[k] == LowerAscii(s[k])
  {
    seq(|s|, k requires 0 <= k < |s| => LowerAscii(s[k]))
  }

  const ImageExtensions: set<string> := {"png", "gif", "jpg", "bmp", "pdf"}

  lemma EndsWithExtension(name: string, ext: string)
    requires |ext| == 3 && |name| >= 4
    ensures EndsWithIgnoreCase(name, "." + ext) <==>
            name[|name| - 4] == '.' && LowerAsciiString(name[|name| - 3..]) == ext
  {
    var p := "." + ext;
    var n := |name|;
    var lower := LowerAsciiString(name[n - 3..]);
    if EndsWithIgnoreCase(name, p) {
      assert LowerAscii(name[n - 4 + 0]) == p[0];
      forall k | 0 <= k < 3 ensures lower[k] == ext[k] {
        assert LowerAscii(name[n - 4 + (k + 1)]) == p[k + 1];
      }
    }
    if name[n - 4] == '.' && lower == ext {
      forall j | 0 <= j < |p| ensures LowerAscii(name[n - |p| + j]) == p[j] {
        if j > 0 {
          assert lower[j - 1] == ext[j - 1];
        }
      }
    }
  }

  /**
   * A name is an image exactly when it ends in a dot and one of the five extensions, in any
   * mix of upper and lower case.
   */
  lemma IsImageIff(name: string)
    ensures IsImage(name) <==>
            |name| >= 4 && name[|name| - 4] == '.' && LowerAsciiString(name[|name| - 3..]) in ImageExtensions
  {
    if |name| >= 4 {
      assert "." + "png" == ".png" && "." + "gif" == ".gif" && "." + "jpg" == ".jpg";
      assert "." + "bmp" == ".bmp" && "." + "pdf" == ".pdf";
      EndsWithExtension(name, "png");
      EndsWithExtension(name, "gif");
      EndsWithExtension(name, "jpg");
      EndsWithExtension(name, "bmp");
      EndsWithExtension(name, "pdf");
    }
  }

  /** Upper- and mixed-case extensions are accepted. */
  lemma IsImageAcceptsAnyCase()
    ensures IsImage("shot.PNG") && IsImage("scan.Pdf")
  {
    var png := "shot.PNG";
    assert png[4] == '.';
    assert LowerAsciiString(png[5..]) == "png";
    IsImageIff(png);
    var pdf := "scan.Pdf";
    assert pdf[4] == '.';
    assert LowerAsciiString(pdf[5..]) == "pdf";
    IsImageIff(pdf);
  }

  /** The extension must come last and be preceded by a dot. */
  lemma IsImageRejects()
    ensures !IsImage("png") && !IsImage("a.jpeg") && !IsImage("a.png.txt")
  {
    IsImageIff("a.jpeg");
    assert "a.jpeg"[2] == 'j';
    var txt := "a.png.txt";
    assert LowerAsciiString(txt[6..]) == "txt";
    IsImageIff(txt);
  }

  /** The extra-image error: a file is chosen and the first one is not an image. */
  function ExtraImageError(files: seq<File>): (r: bool)
    ensures r <==> |files| > 0 && !IsImage(files[0].name)
  {
    if |files| == 0 then false else !IsImage(files[0].name)
  }

  const ExtraImageErrorId := "extra-image-error"

  /** The extra-image input's `change` listener: the error is shown exactly when `ExtraImageError` holds. */
  method OnExtraImageChange(page: Dom.Page, files: seq<File>)
    modifies page
    ensures old(page.Valid()) ==> page.Valid()
    ensures page.elements == Dom.Display(old(page.elements), ExtraImageErrorId, ExtraImageError(files))
    ensures page.sdkElements == old(page.sdkElements) && page.bodyClasses == old(page.bodyClasses)
    ensures page.keydownListeners == old(page.keydownListeners)
  {
    var fileError := ExtraImageError(files);
    if fileError {
      page.Show(ExtraImageErrorId);
    } else {
      page.Hide(ExtraImageErrorId);
    }
  }

  // ---------------------------------------------------------------- extension download

  const SafariExtensionUrl := "https://s3.amazonaws.com/instabug-pro/extensions/safari.safariextz"
  const ChromeExtensionUrl := "https://chrome.google.com/webstore/detail/gbhnbcggjeokebhgalmgkbhkabpjmnda/"
  const FirefoxAddonUrl := "https://addons.mozilla.org/en-US/firefox/addon/instabug/"

  /** What `downloadExtension` opens: the store page, or a blank window with a message. */
  datatype DownloadAction = OpenUrl(url: string) | NotSupportedPage(html: string)

  /**
   * The URL is chosen by the first of `safari`, `chrome`, `firefox` the browser name contains,
   * ignoring case; without one, a page reading the `browserNotSupported` entry.
   */
  function DownloadActionFor(browserName: string, table: map<string, string>): (r: DownloadAction)
    ensures r.OpenUrl? <==>
            ContainsIgnoreCase(browserName, "safari") || ContainsIgnoreCase(browserName, "chrome") ||
            ContainsIgnoreCase(browserName, "firefox")
    ensures ContainsIgnoreCase(browserName, "safari") ==> r == OpenUrl(SafariExtensionUrl)
    ensures !ContainsIgnoreCase(browserName, "safari") && ContainsIgnoreCase(browserName, "chrome") ==>
            r == OpenUrl(ChromeExtensionUrl)
    ensures (!ContainsIgnoreCase(browserName, "safari") && !ContainsIgnoreCase(browserName, "chrome") &&
             ContainsIgnoreCase(browserName, "firefox")) ==> r == OpenUrl(FirefoxAddonUrl)
    ensures r == OpenUrl(ChromeExtensionUrl) ==> !ContainsIgnoreCase(browserName, "safari")
    ensures r == OpenUrl(FirefoxAddonUrl) ==>
            !ContainsIgnoreCase(browserName, "safari") && !ContainsIgnoreCase(browserName, "chrome")
    ensures r.NotSupportedPage? ==> r.html == "<h1>" + JsString(Lookup(table, "browserNotSupported")) + "</h1>"
  {
    if ContainsIgnoreCase(browserName, "safari") then OpenUrl(SafariExtensionUrl)
    else if ContainsIgnoreCase(browserName, "chrome") then OpenUrl(ChromeExtensionUrl)
    else if ContainsIgnoreCase(browserName, "firefox") then OpenUrl(FirefoxAddonUrl)
    else NotSupportedPage("<h1>" + JsString(Lookup(table, "browserNotSupported")) + "</h1>")
  }

  /** Every character of a version token of `keyword` lower-cases to something other than `c`. */
  lemma TokenAvoids(t: string, keyword: string, c: char)
    requires IsVersionToken(t, keyword) && 'a' <= c <= 'z' && c !in keyword
    ensures forall k :: 0 <= k < |t| ==> LowerAscii(t[k]) != c
  {
    forall k | 0 <= k < |t| ensures LowerAscii(t[k]) != c {
      if k < |keyword| {
        assert LowerAscii(t[0 + k]) == keyword[k];
      }
    }
  }

  /** A name that is a version token starts with its keyword. */
  lemma TokenContainsKeyword(t: string, keyword: string)
    requires IsVersionToken(t, keyword)
    ensures ContainsIgnoreCase(t, keyword)
  {
    assert OccursAtIgnoreCase(t, 0, keyword);
  }

  /** An MSIE token holds none of `safari`, `chrome` and `firefox`, in any case. */
  lemma MsieTokenNamesNoStore(t: string)
    requires IsVersionToken(t, "msie")
    ensures !ContainsIgnoreCase(t, "safari") && !ContainsIgnoreCase(t, "chrome") && !ContainsIgnoreCase(t, "firefox")
  {
    TokenAvoids(t, "msie", 'a');
    NotContainedIgnoreCaseWithoutChar(t, "safari", 1);
    TokenAvoids(t, "msie", 'c');
    NotContainedIgnoreCaseWithoutFirstChar(t, "chrome");
    TokenAvoids(t, "msie", 'f');
    NotContainedIgnoreCaseWithoutFirstChar(t, "firefox");
  }

  /**
   * The browser names `getBrowserData` produces lead to: the Safari, Chrome or Firefox store
   * for those tokens and for `firefox`; a not-supported page for MSIE and Opera tokens and for
   * `edge`, `ie` and `Unknown`.
   */
  lemma DownloadForBrowserNames(t: string, table: map<string, string>)
    ensures IsVersionToken(t, "safari") ==> DownloadActionFor(t, table) == OpenUrl(SafariExtensionUrl)
    ensures IsVersionToken(t, "chrome") ==> DownloadActionFor(t, table) == OpenUrl(ChromeExtensionUrl)
    ensures IsVersionToken(t, "firefox") ==> DownloadActionFor(t, table) == OpenUrl(FirefoxAddonUrl)
    ensures IsVersionToken(t, "msie") ==> DownloadActionFor(t, table).NotSupportedPage?
    ensures IsVersionToken(t, "opr") ==> DownloadActionFor(t, table).NotSupportedPage?
    ensures DownloadActionFor("firefox", table) == OpenUrl(FirefoxAddonUrl)
    ensures DownloadActionFor("edge", table).NotSupportedPage?
    ensures DownloadActionFor("ie", table).NotSupportedPage?
    ensures DownloadActionFor("Unknown", table).NotSupportedPage?
  {
    if IsVersionToken(t, "safari") {
      TokenContainsKeyword(t, "safari");
    }
    if IsVersionToken(t, "chrome") {
      ChromeTokenNames(t);
    }
    if IsVersionToken(t, "firefox") {
      FirefoxTokenNames(t);
    }
    if IsVersionToken(t, "msie") {
      MsieTokenNamesNoStore(t);
    }
    if IsVersionToken(t, "opr") {
      OperaTokenNamesNoStore(t);
    }
    FixedNamesDownload(table);
  }

  /** A Chrome token names Chrome and not Safari. */
  lemma ChromeTokenNames(t: string)
    requires IsVersionToken(t, "chrome")
    ensures !ContainsIgnoreCase(t, "safari") && ContainsIgnoreCase(t, "chrome")
  {
    TokenAvoids(t, "chrome", 's');
    NotContainedIgnoreCaseWithoutFirstChar(t, "safari");
    TokenContainsKeyword(t, "chrome");
  }

  /** A Firefox token names Firefox and neither Safari nor Chrome. */
  lemma FirefoxTokenNames(t: string)
    requires IsVersionToken(t, "firefox")
    ensures !ContainsIgnoreCase(t, "safari") && !ContainsIgnoreCase(t, "chrome") && ContainsIgnoreCase(t, "firefox")
  {
    TokenAvoids(t, "firefox", 's');
    NotContainedIgnoreCaseWithoutFirstChar(t, "safari");
    TokenAvoids(t, "firefox", 'c');
    NotContainedIgnoreCaseWithoutFirstChar(t, "chrome");
    TokenContainsKeyword(t, "firefox");
  }

  /** An Opera token holds none of `safari`, `chrome` and `firefox`, in any case. */
  lemma OperaTokenNamesNoStore(t: string)
    requires IsVersionToken(t, "opr")
    ensures !ContainsIgnoreCase(t, "safari") && !ContainsIgnoreCase(t, "chrome") && !ContainsIgnoreCase(t, "firefox")
  {
    TokenAvoids(t, "opr", 's');
    NotContainedIgnoreCaseWithoutFirstChar(t, "safari");
    TokenAvoids(t, "opr", 'c');
    NotContainedIgnoreCaseWithoutFirstChar(t, "chrome");
    TokenAvoids(t, "opr", 'f');
    NotContainedIgnoreCaseWithoutFirstChar(t, "firefox");
  }

  /** The fixed names the classifier produces: `firefox` opens its store, the others do not. */
  lemma FixedNamesDownload(table: map<string, string>)
    ensures DownloadActionFor("firefox", table) == OpenUrl(FirefoxAddonUrl)
    ensures DownloadActionFor("edge", table).NotSupportedPage?
    ensures DownloadActionFor("ie", table).NotSupportedPage?
    ensures DownloadActionFor("Unknown", table).NotSupportedPage?
  {
    NotContainedIgnoreCaseWithoutFirstChar("firefox", "safari");
    NotContainedIgnoreCaseWithoutFirstChar("firefox", "chrome");
    assert OccursAtIgnoreCase("firefox", 0, "firefox");
    NotContainedIgnoreCaseWithoutFirstChar("edge", "safari");
    NotContainedIgnoreCaseWithoutFirstChar("edge", "chrome");
    NotContainedIgnoreCaseWithoutFirstChar("edge", "firefox");
    NotContainedIgnoreCaseWithoutFirstChar("ie", "safari");
    NotContainedIgnoreCaseWithoutFirstChar("ie", "chrome");
    NotContainedIgnoreCaseWithoutFirstChar("ie", "firefox");
    NotContainedIgnoreCaseWithoutFirstChar("Unknown", "safari");
    NotContainedIgnoreCaseWithoutFirstChar("Unknown", "chrome");
    NotContainedIgnoreCaseWithoutFirstChar("Unknown", "firefox");
  }

  /** With the shipped table the not-supported page reads `undefined`, since the table has no such entry. */
  lemma NotSupportedWithDefaultTable()
    ensures DownloadActionFor("edge", DefaultTable) == NotSupportedPage("<h1>undefined</h1>")
  {
    DownloadForBrowserNames("", DefaultTable);
  }

  /** `downloadExtension()`: classifies the browser, then chooses what to open. */
  method DownloadExtension(nav: Navigator, translation: Translation) returns (action: DownloadAction)
    ensures action == DownloadActionFor(BrowserName(nav.appVersion, nav.userAgent), translation.current)
  {
    var data := GetBrowserData(nav);
    action := DownloadActionFor(data.browserName, translation.current);
  }

  // ---------------------------------------------------------------- windows

  /** The opaque screenshot library handed to `initSDK`. */
  datatype Html2Canvas = Html2Canvas(handle: nat)

  /** What the extension module holds: the screenshot fallback and the options `initSDK` copies. */
  class ExtensionState {
    var html2canvas: Option<Html2Canvas>
    var offerDownloadPlugin: Option<bool>
    var descriptionMaxLength: Option<int>

    constructor ()
      ensures html2canvas.None? && offerDownloadPlugin.None? && descriptionMaxLength.None?
    {
      html2canvas := None;
      offerDownloadPlugin := None;
      descriptionMaxLength := None;
    }
  }

  /** How a screenshot is requested: not at all, by the browser plugin's event, or through html2canvas. */
  datatype ScreenshotRequest = NoScreenshot | PluginEvent | Html2CanvasCapture

  /** `pluginIsInstalled()`: the button carries a non-empty `plugin` attribute. */
  predicate PluginIsInstalled(pluginAttribute: Option<string>)
    ensures PluginIsInstalled(pluginAttribute) <==> pluginAttribute.Some? && pluginAttribute.value != ""
  {
    Truthy(pluginAttribute)
  }

  /** `isInstalled()`: html2canvas was supplied or the plugin is installed. */
  predicate IsInstalled(html2canvas: Option<Html2Canvas>, pluginAttribute: Option<string>)
    ensures IsInstalled(html2canvas, pluginAttribute) <==>
            html2canvas.Some? || (pluginAttribute.Some? && pluginAttribute.value != "")
  {
    html2canvas.Some? || PluginIsInstalled(pluginAttribute)
  }

  /** `takeScreenShot()`: the plugin is preferred over html2canvas. */
  function TakeScreenShot(html2canvas: Option<Html2Canvas>, pluginAttribute: Option<string>): (r: ScreenshotRequest)
    ensures r != NoScreenshot <==> IsInstalled(html2canvas, pluginAttribute)
    ensures r == PluginEvent <==> PluginIsInstalled(pluginAttribute)
    ensures r == Html2CanvasCapture <==> !PluginIsInstalled(pluginAttribute) && html2canvas.Some?
  {
    if PluginIsInstalled(pluginAttribute) then PluginEvent
    else if html2canvas.Some? then Html2CanvasCapture
    else NoScreenshot
  }

  const WindowClasses: set<string> := {Dom.SdkClass, "instabug-window"}
  const FormClasses: set<string> := {Dom.SdkClass, "instabug-window", "instabug-form"}
  const DownloadPluginLink := "download-instabug-plugin"

  /**
   * The element map after `initBugreportViews` on elements `m`: unchanged when the form
   * exists; otherwise the four windows are added hidden, the plugin link is hidden when the
   * plugin is installed, and the extension pop-up is shown on a desktop without a screenshot tool.
   */
  function Initialized(m: map<string, Dom.Element>, isMobile: bool, installed: bool, pluginInstalled: bool): (r: map<string, Dom.Element>)
    ensures Dom.FormContainer in m ==> r == m
    ensures Dom.FormContainer !in m ==>
              r.Keys == m.Keys + {Dom.FormContainer, Dom.ExtensionPopUp, Dom.LoadingWindow, Dom.ThankYouPage}
  {
    if Dom.FormContainer in m then m
    else
      var withForm := m[Dom.FormContainer := Dom.Element(false, FormClasses)];
      var afterForm := if pluginInstalled then Dom.Display(withForm, DownloadPluginLink, false) else withForm;
      var all := afterForm[Dom.ExtensionPopUp := Dom.Element(false, WindowClasses)]
                          [Dom.LoadingWindow := Dom.Element(false, WindowClasses)]
                          [Dom.ThankYouPage := Dom.Element(false, WindowClasses)];
      if !isMobile && !installed then Dom.Display(all, Dom.ExtensionPopUp, true) else all
  }

  /** Initialising a second time changes nothing. */
  lemma InitializedIdempotent(m: map<string, Dom.Element>, isMobile: bool, installed: bool, pluginInstalled: bool)
    ensures Initialized(Initialized(m, isMobile, installed, pluginInstalled), isMobile, installed, pluginInstalled)
            == Initialized(m, isMobile, installed, pluginInstalled)
  {
  }

  /**
   * After the first initialisation all four windows exist with their classes; all are hidden
   * except the extension pop-up, which is shown exactly on a desktop without a screenshot tool;
   * elements of the host page other than the plugin link are untouched.
   */
  lemma InitializedWindows(m: map<string, Dom.Element>, isMobile: bool, installed: bool, pluginInstalled: bool)
    requires Dom.FormContainer !in m
    ensures var r := Initialized(m, isMobile, installed, pluginInstalled);
      && r.Keys == m.Keys + {Dom.FormContainer, Dom.ExtensionPopUp, Dom.LoadingWindow, Dom.ThankYouPage}
      && r[Dom.FormContainer] == Dom.Element(false, FormClasses)
      && r[Dom.LoadingWindow] == Dom.Element(false, WindowClasses)
      && r[Dom.ThankYouPage] == Dom.Element(false, WindowClasses)
      && r[Dom.ExtensionPopUp] == Dom.Element(!isMobile && !installed, WindowClasses)
      && (forall id :: id in m && id !in Dom.Windows && id != DownloadPluginLink ==> r[id] == m[id])
  {
  }

  /** After `Initialized`, the form exists. */
  lemma InitializedHasForm(m: map<string, Dom.Element>, isMobile: bool, installed: bool, pluginInstalled: bool)
    ensures Dom.FormContainer in Initialized(m, isMobile, installed, pluginInstalled)
  {
  }

  /**
   * `addSubmitForm()`: appends the hidden form, then hides the plugin download link when the
   * plugin is installed.
   */
  method AddSubmitForm(page: Dom.Page, pluginAttribute: Option<string>)
    requires Dom.FormContainer !in page.elements
    modifies page
    ensures var withForm := old(page.elements)[Dom.FormContainer := Dom.Element(false, FormClasses)];
      page.elements == if PluginIsInstalled(pluginAttribute) then Dom.Display(withForm, DownloadPluginLink, false) else withForm
    ensures page.sdkElements == old(page.sdkElements) + [Dom.FormContainer]
    ensures page.bodyClasses == old(page.bodyClasses) && page.keydownListeners == old(page.keydownListeners)
    ensures old(Dom.ClassMarksSdk(page.elements, page.sdkElements)) ==> Dom.ClassMarksSdk(page.elements, page.sdkElements)
  {
    page.AppendHidden(Dom.FormContainer, FormClasses);
    if PluginIsInstalled(pluginAttribute) {
      page.Hide(DownloadPluginLink);
    }
  }

  /**
   * `initBugreportViews()`: when the form is not yet on the page, adds the form, the extension
   * pop-up, the loading window and the thank-you page, in that order; then, on a desktop, shows
   * the pop-up when no screenshot tool is available and requests a screenshot otherwise.
   */
  method InitBugreportViews(page: Dom.Page, extension: ExtensionState, pluginAttribute: Option<string>, isMobile: bool)
    returns (request: ScreenshotRequest)
    requires page.Valid()
    modifies page
    ensures page.Valid()
    ensures old(Dom.FormContainer in page.elements) ==> unchanged(page) && request == NoScreenshot
    ensures page.elements == Initialized(old(page.elements), isMobile,
                                         IsInstalled(extension.html2canvas, pluginAttribute),
                                         PluginIsInstalled(pluginAttribute))
    ensures !old(Dom.FormContainer in page.elements) ==> page.sdkElements == old(page.sdkElements) + Dom.Windows
    ensures page.bodyClasses == old(page.bodyClasses) && page.keydownListeners == old(page.keydownListeners)
    ensures !old(Dom.FormContainer in page.elements) ==>
            request == if isMobile || !IsInstalled(extension.html2canvas, pluginAttribute) then NoScreenshot
                       else TakeScreenShot(extension.html2canvas, pluginAttribute)
  {
    request := NoScreenshot;
    if page.IsExisted(Dom.FormContainer) {
      return;
    }
    ghost var before := page.sdkElements;
    ghost var keys := page.elements.Keys;
    Dom.WindowsDistinct();
    assert Dom.Windows[0] in Dom.Ids(Dom.Windows);
    assert forall k :: 0 <= k < |Dom.Windows| ==> Dom.Windows[k] !in keys;
    Dom.AppendWindows(before, keys);

    AddSubmitForm(page, pluginAttribute);
    // addDownloadExtensionWindow(), addLoadingWindow(), addThankYouPage()
    page.AppendHidden(Dom.ExtensionPopUp, WindowClasses);
    page.AppendHidden(Dom.LoadingWindow, WindowClasses);
    page.AppendHidden(Dom.ThankYouPage, WindowClasses);
    assert page.sdkElements == before + Dom.Windows;
    assert page.elements.Keys == keys + Dom.Ids(Dom.Windows);

    if !isMobile {
      if !IsInstalled(extension.html2canvas, pluginAttribute) {
        page.Show(Dom.ExtensionPopUp);
      } else {
        request := TakeScreenShot(extension.html2canvas, pluginAttribute);
      }
    }
  }

  /**
   * `resetAndClose()`: removes the SDK elements one at a time, first in document order first,
   * and removes `u-disable-scrolling` from `<body>` after each removal (so not at all when
   * there was none).
   */
  method ResetAndClose(page: Dom.Page)
    requires page.Valid()
    modifies page
    ensures page.Valid()
    ensures page.sdkElements == []
    ensures page.elements == old(page.elements) - Dom.Ids(old(page.sdkElements))
    ensures forall id :: id in page.elements ==> Dom.SdkClass !in page.elements[id].classes
    ensures page.bodyClasses == if old(page.sdkElements) == [] then old(page.bodyClasses)
                                else old(page.bodyClasses) - {"u-disable-scrolling"}
    ensures page.keydownListeners == old(page.keydownListeners)
  {
    ghost var s0 := page.sdkElements;
    ghost var e0 := page.elements;
    ghost var n := 0;
    while |page.sdkElements| > 0
      invariant 0 <= n <= |s0| && page.sdkElements == s0[n..]
      invariant page.elements == e0 - Dom.Ids(s0[..n])
      invariant page.bodyClasses == if n == 0 then old(page.bodyClasses) else old(page.bodyClasses) - {"u-disable-scrolling"}
      invariant page.keydownListeners == old(page.keydownListeners)
      decreases |page.sdkElements|
    {
      assert Dom.Ids(s0[..n + 1]) == Dom.Ids(s0[..n]) + {s0[n]} by {
        assert s0[..n + 1] == s0[..n] + [s0[n]];
      }
      page.RemoveFirstSdkElement();
      page.RemoveBodyClass("u-disable-scrolling");
      n := n + 1;
    }
    assert s0[..n] == s0;
    assert forall k :: 0 <= k < |Dom.Windows| ==> Dom.Windows[k] !in page.elements;
  }

  const SdkErrorId := "instabugsdkerror"
  const LoadingMessageId := "instabugLoadingMsg"

  /** The element map after `showSubmitView` on `m`. */
  function SubmitView(m: map<string, Dom.Element>): map<string, Dom.Element> {
    Dom.Display(Dom.Display(Dom.Display(Dom.Display(m, SdkErrorId, false), LoadingMessageId, true),
                            Dom.LoadingWindow, false), Dom.FormContainer, true)
  }

  /**
   * After `showSubmitView`, of the elements present, the error is hidden, the loading message
   * shown, the loading window hidden and the form shown; nothing else changes.
   */
  lemma SubmitViewVisibility(m: map<string, Dom.Element>)
    ensures var r := SubmitView(m);
      && r.Keys == m.Keys
      && (SdkErrorId in m ==> !r[SdkErrorId].shown)
      && (LoadingMessageId in m ==> r[LoadingMessageId].shown)
      && (Dom.LoadingWindow in m ==> !r[Dom.LoadingWindow].shown)
      && (Dom.FormContainer in m ==> r[Dom.FormContainer].shown)
      && (forall id :: id in m ==> r[id].classes == m[id].classes)
      && (forall id :: id in m && id !in {SdkErrorId, LoadingMessageId, Dom.LoadingWindow, Dom.FormContainer} ==> r[id] == m[id])
  {
  }

  /** `showSubmitView()` */
  method ShowSubmitView(page: Dom.Page)
    modifies page
    ensures old(page.Valid()) ==> page.Valid()
    ensures page.elements == SubmitView(old(page.elements))
    ensures page.sdkElements == old(page.sdkElements) && page.bodyClasses == old(page.bodyClasses)
    ensures page.keydownListeners == old(page.keydownListeners)
  {
    page.Hide(SdkErrorId);
    page.Show(LoadingMessageId);
    page.Hide(Dom.LoadingWindow);
    page.Show(Dom.FormContainer);
  }
}
