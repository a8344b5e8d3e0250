# instabug-websdk, modelled in Dafny

A model of the core of the Instabug web SDK, the in-page widget that files bug reports. It
covers four parts of the SDK.

- **The bug-report module** (`src/bugReport.js`):
  - the integration settings kept in module state, with their setters and getter;
  - browser and OS classification from `navigator.appVersion`;
  - assembly of the report record, whose optional fields are present only when they apply;
  - the list of Cloudinary uploads;
  - the merge of the upload results (screenshot URLs, their numbered text, the network log)
    into the report before it is posted to the Zapier webhook.
- **The helpers** (`src/utils.js`):
  - `shortifyTime`;
  - `assign`, a nested loop writing properties into a target object;
  - `dataURItoBlob`, which parses the header of a `data:` URL (section 2 of RFC 2397) and
    copies code units into a byte array.
- **The views** (`src/views.js`):
  - `%key%` placeholder translation;
  - the extra-image extension check;
  - the choice of the extension download page;
  - the window set-up guarded by the form's existence;
  - the `resetAndClose` removal loop;
  - the visibility changes of the submit view.
- **The entry points** (`src/index.js`):
  - the `initSDK` option gate and the copying of options into the settings;
  - the Ctrl+U shortcut;
  - button enable and disable;
  - `continueWithoutScreenshot`.

Files:

- `wrappers.dfy`: `Option` and `Result`.
- `text.dfy` (`Text`): the JavaScript string operations the source relies on, modelled exactly
  for the strings involved:
  - `indexOf`, `split` and `join`;
  - substring tests, with the regular-expression `i` flag as ASCII case folding;
  - decimal printing of numbers in template literals;
  - `String(undefined)`.
- `dom.dfy` (`Dom`): the page.
  - Each element is found by id and records whether it is displayed and which classes it has.
  - The page also holds the `<body>` classes and the body's `ibgsdk-element` children in
    document order. The page invariant `Dom.Page.Valid` ties the two: the listed SDK elements are
    exactly the elements carrying the class `ibgsdk-element`.
  - A `Page` class carries the operations the source performs on the page.
- `utils.dfy`, `bug_report.dfy`, `templates.dfy`, `views.dfy`, `sdk.dfy`: one module per source
  file. `templates.dfy` holds the `translate` part of `src/views.js`.

The source's module-level state becomes classes with `modifies` clauses:

- `BugReport.ReportConfig`: `IntegrationData`, `attachLocalStorage`, `logSource`.
- `Views.Translation`: `translation.current`.
- `Views.ExtensionState`: the `extension` module's `html2canvas`, `offerDownloadPlugin` and
  `descriptionMaxLength`.
- `Dom.Page`: the document.

Loops become Dafny loops with invariants: `for` loops in `Utils.Assign` and
`Utils.DataUriToBlob`, `while` loops in `Views.ResetAndClose` and `Sdk.OnKeydown`. Pure parts are functions with lemmas.

The regular expressions are modelled concretely:

- `/(firefox|msie|chrome|safari|opr|trident)[/\s]([\d.]+)/ig` is a leftmost scan. At each
  index it tries the alternatives in order, and its version part is greedy.
- `/%([^%]*)%/g` is a left-to-right scan. It pairs each `%` with the next one.
- `\s` is JavaScript's set of white-space characters.

Two observations about the code:

- The shipped English table (`src/translation.js`) has no `browserNotSupported` entry. So the
  page opened for a browser without an extension reads `<h1>undefined</h1>`
  (`Views.NotSupportedWithDefaultTable`).
- Each `initSDK` call registers one more keydown listener. A Ctrl+U therefore runs
  `initBugreportViews` once per call. Because of the form guard, every run after the first does
  nothing (`Sdk.OnKeydown`).

## Model

| member | source | states |
|---|---|---|
| BugReport.ReportConfig.constructor | src/bugReport.js:18-29 | At load, the webhook URL and the Cloudinary account are unset, local-storage capture is on, no log source is set, and the start time is the load time. |
| BugReport.ReportConfig.GetZapierHookUrl | src/bugReport.js:47-49 | The getter reads the stored webhook URL, unset until one is set. |
| BugReport.ReportConfig.SetZapierHookUrl | src/bugReport.js:37-49 | Reading the webhook URL back after setting it gives the URL set. The Cloudinary fields, the local-storage switch and the log source are unchanged. |
| BugReport.ReportConfig.SetCloudinaryIntegration | src/bugReport.js:58-61 | Both Cloudinary fields take the given values. The webhook URL and the other settings are unchanged. |
| BugReport.ReportConfig.DisableLocalStorage | src/bugReport.js:63-65 | Local-storage capture is off afterwards. Nothing else changes. |
| BugReport.ReportConfig.SetLogSource | src/bugReport.js:67-69 | The log source becomes the argument, even an absent one. Nothing else changes. |
| BugReport.UploadBugImages | src/bugReport.js:128-135 | The uploads keep only the present assets, in order: the screenshot first as `image.png`, when there is a drawing canvas; then the first chosen file as `extra.png`, when one is chosen. The count is exactly the number present. Each is the Cloudinary request of `uploadCloudinary` (src/bugReport.js:86-102): posted to `https://api.cloudinary.com/v1_1/<cloud name>/upload` (`undefined` printed for a missing name) with the upload preset, the tag `instabug_screenshot` and no extra fields. |
| BugReport.UploadsShareEndpoint | src/bugReport.js:86-135 | Every image upload of a submission goes to the log upload's Cloudinary URL, with its upload preset and tag. |
| BugReport.LogUploadRequest | src/bugReport.js:119-126 | The log upload carries the JSON text as its file, named `network-logs.json`, with the one extra field `resource_type: raw`. It goes to the same Cloudinary URL, with the same preset and tag, as every other upload with the same settings. |
| BugReport.GetMemoryUsed | src/bugReport.js:142-155 | Memory figures exist exactly when the browser exposes the heap. They are then the heap sizes in millions of bytes. |
| BugReport.TokenAtIsToken | src/bugReport.js:169-177 | A match of the browser pattern at an index is a whole version token of one of its keywords: keyword in any case, separator, version characters. It is the text at that index. |
| BugReport.FirstTokenNone | src/bugReport.js:169 | The global match finds nothing exactly when no index at or after the start begins a match (both directions). |
| BugReport.FirstTokenLeftmost | src/bugReport.js:169-177 | What the global match returns first is the match at the leftmost index that begins one. |
| BugReport.BrowserNameAsWritten | src/bugReport.js:169-184 | The browser name as the source computes it, None where the source throws. It throws only when the version string passes the first test and holds neither `Edge` nor `Trident`, and then only when the narrower pattern of its branch (Opera when `opr` occurs in any case, the four classic browsers otherwise) finds nothing. A version string that fails the first test never makes it throw. |
| BugReport.BrowserName | src/bugReport.js:169-184 | The corrected browser name. A version string without a known-browser token gives `firefox` exactly when the user agent mentions Firefox, and `Unknown` otherwise; one that passes the first test and holds `Edge` gives `edge`. |
| BugReport.TridentIsKnownBrowser | src/bugReport.js:169 | `trident/7` passes the first browser test. |
| BugReport.OperaMarkedChromeIsKnownBrowser | src/bugReport.js:169 | `Chrome/70 (Opr)` passes the first browser test with its Chrome token. |
| BugReport.OperaMarkedChromeTakesOperaBranch | src/bugReport.js:170-174 | `Chrome/70 (Opr)` holds neither `Edge` nor `Trident` and mentions `opr` in some case, so detection takes the Opera branch. |
| BugReport.OperaMarkedChromeHasNoOperaToken | src/bugReport.js:175 | The Opera pattern finds no match in `Chrome/70 (Opr)`, since its `opr` is followed by `)`. |
| BugReport.BrowserNameAsWrittenThrowsOnOperaBranch | src/bugReport.js:169-175 | A version string that passes the first test, holds neither `Edge` nor `Trident`, mentions `opr` and has no Opera token makes the source's detection read index 0 of a `null` match. |
| BugReport.BrowserNameAsWrittenThrowsOnOpera | src/bugReport.js:169-175 | For the version string `Chrome/70 (Opr)`, the source's browser detection reads index 0 of a `null` match. |
| BugReport.BrowserNameAsWrittenThrows | src/bugReport.js:169-178 | For the version string `trident/7`, the source's browser detection reads index 0 of a `null` match. |
| BugReport.BrowserNameAgreesWithSource | src/bugReport.js:163-184 | Wherever the source's detection does not throw, the corrected browser name equals the source's. Where it throws, the corrected name is `Unknown`. |
| BugReport.BrowserNameKinds | src/bugReport.js:169-184 | The browser name is one of `edge`, `ie`, `firefox` or `Unknown`, or else a version token of a known browser that occurs in the version string. |
| BugReport.OsNameCases | src/bugReport.js:186-190 | The OS is that of the last of `Win`, `Mac`, `X11`, `Linux` the version string contains, since each later test overrides the earlier ones. Otherwise it is `Unknown OS`. |
| BugReport.OsUnknownIff | src/bugReport.js:186-190 | The OS is `Unknown OS` exactly when the version string contains none of the four markers. |
| BugReport.GetBrowserData | src/bugReport.js:163-198 | The method does the step-by-step reassignment of the browser and OS names. Its result is the corrected browser name, the OS, the navigator object itself (`navigatorInfo`) and `navigator.language`. Wherever the source does not throw, that browser name is the one the source computes. |
| BugReport.Screenshots | src/bugReport.js:264-269 | There is one entry per upload response, in order. An entry is a URL exactly when the response has status `OK` and a non-empty `secure_url`, and it is then that URL. Otherwise the entry is the response itself, so a failed upload stays `null`. |
| BugReport.ScreenshotsTextEmpty | src/bugReport.js:270-271 | With no screenshots, the text is empty. |
| BugReport.ScreenshotsTextLines | src/bugReport.js:270-271 | When no entry prints a line break, the text splits at `\n` into exactly one line per entry, in order. The entry at index i reads `[Screenshot #i+1\|entry]`. |
| BugReport.TwoScreenshotsText | src/bugReport.js:270-271 | An illustration of `ScreenshotsTextLines`: two uploaded URLs give `[Screenshot #1\|u1]`, a line break, and `[Screenshot #2\|u2]`. |
| BugReport.Present | src/bugReport.js:129-132 | The filter keeps only present values, each of which is in the list, and keeps every present value. A list of present values is kept whole and in order; a list of absent ones gives nothing. |
| BugReport.PresentConcat | src/bugReport.js:128-135 | Keeping the present values of two lists in turn is the same as keeping those of their concatenation. |
| BugReport.MergeUploads | src/bugReport.js:263-275 | The merge writes the screenshot list and its text. The network log is set to `data && data.secure_url` exactly when a log upload was made and its response is truthy; otherwise the field stays as it was. No other field of the report changes. |
| BugReport.MergeNothing | src/bugReport.js:258-275 | With no assets and no log source, the report gets an empty list, an empty text and no network-log field. |
| BugReport.ReportConfig.PrepareBugReport | src/bugReport.js:205-231 | The report has the form's email and comment, the classified browser and OS, the locale, the page URL, the screen size `WxH`, the density and the console log. Its duration is the elapsed whole seconds. It has a local-storage snapshot exactly when capture is on, and memory figures exactly when the browser offers them (never `false`). |
| BugReport.ReportConfig.SubmitBugReport | src/bugReport.js:250-282 | Submission aborts, with the page untouched, exactly when converting the canvas fails. Otherwise it sends the image uploads and, only when a log source is set, the log upload as `network-logs.json` with `resource_type: raw`. It posts the prepared report with the merged upload results to the webhook URL read at the start. When the log upload returned a non-null response, the posted report has a network-log field holding that response's `data.secure_url`, `undefined` where either is missing; otherwise it has no network-log field. The page ends with the form hidden and the thank-you page shown. |
| Utils.ShortifyTime | src/utils.js:14-16 | The result r is the floor of t/1000: 1000·r ≤ t < 1000·(r+1), negative spans included. |
| Utils.OverlayLastWins | src/utils.js:76-87 | After the writes, a property holds the value of the last entry that names it. |
| Utils.OverlayUntouched | src/utils.js:76-87 | A property that no entry names keeps its presence and its value. |
| Utils.OverlayKeys | src/utils.js:76-87 | The properties afterwards are exactly the target's plus those the entries name. |
| Utils.LaterSourceWins | src/utils.js:76-87 | For a property named by a source that no later source names, that source's value wins over the target's and every earlier source's. |
| Utils.SourceEntriesFrom | src/utils.js:76-79 | Every entry written comes from a non-null source, so `null` and `undefined` sources contribute nothing. |
| Utils.Assign | src/utils.js:73-89 | The method returns the target object itself, or a fresh object for a null target. Its properties become the target's overlaid with every non-null source's own properties in argument and key order. |
| Utils.Field | src/utils.js:55-62 | Piece 0 of a split always exists. |
| Utils.DataUriToBlob | src/utils.js:53-71 | The conversion fails exactly when the decoder fails or the header has no `:` piece. Otherwise the media type is the second piece of the header split at `:` (the text between its first and second `:`), cut at the first `;`; so `data:a:b;c` gives `a`. The byte array has the decoded string's length, and byte i is code unit i mod 256. The base64 decoder is used exactly when the header contains `base64`. |
| Utils.HeaderAndPayload | src/utils.js:55-58 | When neither part holds a comma, the header is the text before the comma and the decoder input is the text after it. |
| Utils.MediaTypeOfHeader | src/utils.js:62 | A header `data:<type>;<parameters>` gives the media type `<type>`. |
| Utils.Base64DataUrl | src/utils.js:53-71 | `data:<type>;base64,<text>` is decoded from `<text>` with the base64 decoder and carries the media type `<type>`. |
| Templates.Translate | src/views.js:18-20 | `translate` leaves a template without `%` unchanged. A template that is one `%key%` placeholder, whose key holds no `%`, becomes the table's entry for the key, or `undefined` when the table lacks it. |
| Templates.SubstituteNoPercent | src/views.js:18-20 | A string without `%` is returned unchanged. |
| Templates.SubstituteLiteralPrefix | src/views.js:18-20 | Text without `%` in front of a string passes through unchanged. |
| Templates.SubstitutePlaceholderPrefix | src/views.js:18-20 | A leading `%key%`, whose key holds no `%`, is replaced by the callback's value for the key. The rest is substituted on its own. |
| Templates.SubstituteUnpaired | src/views.js:18-20 | A `%` with no later `%` is kept, together with everything after it. |
| Templates.SubstitutePieces | src/views.js:18-20 | A template made of literal texts and placeholders, none holding `%`, becomes the literals unchanged with each placeholder replaced by its entry, in order. Whatever follows is substituted on its own. |
| Templates.SubstituteUnpairedPercent | src/views.js:18-20 | A template followed by an unpaired `%` and text without `%` is filled, and the unpaired end is kept as is. |
| Views.Translation.constructor | src/translation.js:1-17 | The table starts as the shipped English table. |
| Views.TranslateKnownKey | src/translation.js:15 | An illustration of `SubstitutePieces` on the shipped table: `<b>%close%</b>` translates to `<b>Close</b>`. |
| Views.TranslateMissingKey | src/views.js:18-20 | A placeholder whose key the table lacks becomes `undefined`. |
| Views.IsImage | src/views.js:22-24 | A name the image test accepts has at least four characters, and its fourth-last character is a dot. |
| Views.EndsWithExtension | src/views.js:22-24 | A name ends with `.ext`, ignoring ASCII case, exactly when its fourth-last character is a dot and its last three lower-case to `ext`. |
| Views.IsImageIff | src/views.js:22-24 | A name is an image exactly when it ends with a dot followed by `png`, `gif`, `jpg`, `bmp` or `pdf`, in any case (both directions). |
| Views.IsImageAcceptsAnyCase | src/views.js:22-24 | An illustration of `IsImageIff`: `shot.PNG` and `scan.Pdf` are images. |
| Views.IsImageRejects | src/views.js:22-24 | An illustration of `IsImageIff`: `png`, `a.jpeg` and `a.png.txt` are not images. |
| Views.ExtraImageError | src/views.js:37 | The error holds exactly when a file is chosen and the first chosen file is not an image. |
| Views.OnExtraImageChange | src/views.js:36-39 | The change listener shows the error element exactly when there is an error and hides it otherwise. Nothing else on the page changes. |
| Views.DownloadActionFor | src/views.js:86-104 | A store page opens exactly when the browser name contains `safari`, `chrome` or `firefox`, ignoring case. A name containing `safari` opens the Safari store; one containing `chrome` but not `safari` opens the Chrome store; one containing `firefox` but neither of the others opens the Firefox add-on page. Otherwise a page reading the `browserNotSupported` entry opens. |
| Views.DownloadForBrowserNames | src/views.js:86-104 | For the names the classifier produces, Safari, Chrome and Firefox tokens and `firefox` open their stores. MSIE and Opera tokens, `edge`, `ie` and `Unknown` get the not-supported page. |
| Views.NotSupportedWithDefaultTable | src/views.js:101-102 | With the shipped table, the not-supported page reads `<h1>undefined</h1>`. |
| Views.DownloadExtension | src/views.js:86-104 | The action is chosen from the browser name `getBrowserData` reports and the current table. |
| Views.PluginIsInstalled | src/extension.js:33-35 | The plugin counts as installed exactly when the button's `plugin` attribute is present and non-empty, as the truthiness of `getAttribute` decides. |
| Views.IsInstalled | src/extension.js:21-26 | A screenshot tool is available exactly when html2canvas was supplied or the plugin attribute is present and non-empty. |
| Views.TakeScreenShot | src/extension.js:48-59 | A screenshot is requested exactly when html2canvas or the plugin is available. The plugin event is used exactly when the plugin is installed, and html2canvas exactly when it is supplied and the plugin is not. |
| Views.Initialized | src/views.js:122-137 | With the form present the elements are unchanged. Otherwise exactly the form and the three windows are added to the page's ids. |
| Views.InitializedIdempotent | src/views.js:122-125 | Initialising the views a second time changes nothing. |
| Views.InitializedWindows | src/views.js:122-137 | After the first initialisation, the form and the three windows exist hidden with their classes. The pop-up is shown exactly on a desktop without a screenshot tool. Host elements other than the plugin link are untouched. |
| Views.InitializedHasForm | src/views.js:122-130 | After initialisation the form exists. |
| Views.AddSubmitForm | src/views.js:26-43 | The form is appended hidden as an SDK element. The plugin link is hidden exactly when the plugin is installed. |
| Views.InitBugreportViews | src/views.js:122-138 | With the form present, the page is unchanged and no screenshot is requested. Otherwise the four windows are appended in order as SDK elements and the page validity invariant is kept. On a desktop, the pop-up is shown when no screenshot tool exists, and a screenshot is requested otherwise. |
| Views.ResetAndClose | src/views.js:45-50 | Every SDK element is removed, one per pass from the front, and nothing else is. Afterwards no element on the page carries `ibgsdk-element`, which is the source's loop condition. `u-disable-scrolling` leaves `<body>` exactly when at least one element was removed. |
| Views.SubmitViewVisibility | src/views.js:79-84 | Of the elements present, the error is hidden, the loading message shown, the loading window hidden and the form shown. No element is added and nothing else changes. |
| Views.ShowSubmitView | src/views.js:79-84 | The page's elements become the submit view. The SDK elements and body classes are unchanged. |
| Dom.AppendWindows | src/views.js:127-130 | Appending the four windows to distinct SDK elements that do not include them keeps the list distinct and puts every window in it. |
| Dom.Page.AppendHidden | src/views.js:70-77 | The appended element exists hidden with its classes and is the last SDK element. Nothing else changes. |
| Dom.Page.RemoveFirstSdkElement | src/views.js:47 | The first SDK element leaves both the page and the list. Nothing else changes. |
| Sdk.Accepts | src/index.js:26-34 | The options pass the guard exactly when they exist and the webhook URL, the cloud name and the upload preset are all non-empty. |
| Sdk.InitSdk | src/index.js:25-76 | Rejected options change no setting and no page state. Accepted ones store the webhook URL and both Cloudinary fields. They disable local storage exactly when asked, replace the table only when one is given, and always overwrite the log source. html2canvas is set only when given, while both extension options are always copied. One keydown listener is added. |
| Sdk.ShortcutInvokes | src/index.js:64-69 | The widget opens exactly on Ctrl with key code 85, the `U` key. |
| Sdk.OnKeydown | src/index.js:64-69 | On Ctrl+U each registered listener runs the view set-up; any other key changes nothing. The page ends as after one run: the elements are initialised, the four windows are appended to the SDK elements unless the form was already there, and the body classes stay. The first run requests what the set-up requests for the original page, and every later run requests nothing. |
| Sdk.DisableSdk | src/index.js:82-84 | The button gains `u-hide`. Nothing else changes. |
| Sdk.EnableSdk | src/index.js:90-92 | The button loses `u-hide`. Nothing else changes. |
| Sdk.DisableThenEnable | src/index.js:82-92 | Disabling is idempotent. Enabling after it gives back the original page when the button did not carry `u-hide`. |
| Sdk.ContinueViewVisibility | src/index.js:98-106 | The pop-up is hidden and the form shown, each when it exists. No element is added and nothing else changes. |
| Sdk.ContinueWithoutScreenshot | src/index.js:98-106 | The page's elements become the continue view. The SDK elements, body classes and listeners are unchanged. |

## Left out

- Network I/O is not modelled: the `xhr` module, the Cloudinary uploads and the Zapier post. Each upload's settled result is a parameter (`respond`), and a failed request is the `null` response.
- Promise chaining and `finallyPolyfill` are not modelled. Submission is written as: all uploads settle, then the merge, then the post, then the thank-you page. As in the source, the thank-you page is shown whether or not the post succeeds.
- The browser APIs are not modelled: `FormData`, `Blob`, `canvas.toDataURL`, `atob`, `unescape`, `JSON.stringify`, `localStorage`, `location`, `Date.now` and `window.open`. Their results are parameters; `atob` and `unescape` are functions passed in.
- `sanitizeEmail` (`src/utils.js:41-45`) and `isMobile` (`src/utils.js:24-32`) are not modelled. `isMobile` is a parameter.
- The `setInterval` focus workaround in `initSDK` is left out; it is a timer.
- `addReportButton` (`src/views.js:111-116`) is left out. It is not among the operations modelled; the button appears only as the element `instabugSDK`.
- The `element` helper module is not part of this model. `show`, `hide`, `addClass` and `removeClass` on an id that is not on the page are taken to change nothing.
- Setting `style.display` to `null` is read as "shown".
- The HTML templates and their inner elements are not part of this model. The plugin link and the error element are page elements in their own right. `translate` is modelled on any string, not on the shipped templates.
- The `extension` module's event dispatch and the asynchronous html2canvas callback (`src/extension.js`) are not modelled. `Views.TakeScreenShot` returns which path is taken.
- Views.DownloadActionFor: `window.open` and `document.write` are returned as an action instead of being performed.
- Templates.Lookup: a key is looked up among the table's own entries only. Inherited properties of a JavaScript object, such as `constructor`, are not modelled.
- Sdk.InitSdk: option values are typed. The SDK strings are `Option<string>` with truthiness "present and non-empty", and `noLocalStorage` is a `bool`. JavaScript truthiness of other value types is not modelled, and an accepted call's result `undefined` is `true`.
- Dom.Page.constructor: host pages whose own elements carry `ibgsdk-element` are not modelled. The source's `resetAndClose` would remove such elements too, while the page invariant assumes only the widget's elements carry the class.
- Dom.Page.AddClass: adding or removing the class `ibgsdk-element` itself is outside the page invariant; `Dom.Page.AddClass` and `Dom.Page.RemoveClass` keep `Valid` only for other classes, which are the only ones the widget passes to them.
- Dom.Page.RemoveFirstSdkElement: every `ibgsdk-element` is taken to be a direct child of `<body>`, as the widget appends them.
- BugReport.GetBrowserData: where the source throws a TypeError, for instance for the version strings `trident/7` and `Chrome/70 (Opr)`, the model returns the corrected name `Unknown` instead of stopping (see Findings).
- BugReport.ReportConfig.PrepareBugReport: for a version string on which the source's browser detection throws, the source stops before building the report; the model builds one with the browser `Unknown`.
- BugReport.ReportConfig.SubmitBugReport: for such a version string the source throws in `prepareBugReport` before anything is uploaded or posted; the model uploads, posts the report with the browser `Unknown` and shows the thank-you page.
- Views.DownloadExtension: for such a version string the source throws before opening anything; the model returns the action for `Unknown`, the not-supported page.
- Utils.Assign: the sources are value snapshots taken at the call, so aliasing between the target and a source, as in `assign(o, {a: 1}, o)`, is not modelled.
- Views.PluginIsInstalled: the `plugin` attribute is a parameter, so the model assumes the `instabugSDK` button exists. Without it the source's `getElementById(...).getAttribute` throws a TypeError, in `addSubmitForm` as in `takeScreenShot`; that case is not modelled.
- Console output is not modelled: the `console.error` of a rejected `initSDK` (`src/index.js:31`) and the `console.warn` when memory figures are unavailable (`src/bugReport.js:151`).
- BugReport.ReportConfig.PrepareBugReport: the two `Date.now()` readings of the report (`reported_at` and the one used for `duration`) are one parameter `now`, so the model takes them at the same instant.
- Sdk.OnKeydown: the `e.preventDefault()` call on Ctrl+U is not modelled, as the browser default action is not part of the page.
- Dom.Page.Show: showing or hiding an id that is not on the page changes nothing; the guards of `continueWithoutScreenshot` (`src/index.js:99,103`) suggest the source's helpers may instead throw there, and that case is not modelled.
- BugReport.GetMemoryUsed: the division by 10^6 is exact real division, not floating point.
- The report's `density` (`devicePixelRatio`) is a real number, not a floating-point one.

## Findings

| source | as written | input that shows it | evidently intended | confidence | as-written member | corrected member |
|---|---|---|---|---|---|---|
| src/bugReport.js:169-178 | The first test accepts a `trident/...` token, case-insensitively. The `Trident` test is case-sensitive. The fall-back pattern has no `trident`, so `[0]` is read from a `null` match and `getBrowserData` throws a TypeError. | `navigator.appVersion` = `trident/7` | Report the browser as `Unknown` whenever the narrower pattern finds nothing, as for other unrecognised browsers | not executed; medium | BugReport.BrowserNameAsWrittenThrows | BugReport.BrowserNameAgreesWithSource |
| src/bugReport.js:169-175 | A version string with a Chrome token and an `opr` not followed by a separator takes the Opera branch. The Opera pattern then finds nothing, so `[0]` is read from a `null` match and `getBrowserData` throws a TypeError. | `navigator.appVersion` = `Chrome/70 (Opr)` | Report the browser as `Unknown` whenever the narrower pattern finds nothing | not executed; medium | BugReport.BrowserNameAsWrittenThrowsOnOpera | BugReport.BrowserNameAgreesWithSource |
