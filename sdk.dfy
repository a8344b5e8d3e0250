/**
 * The SDK's entry points: `initSDK`, which validates the options and copies them into the
 * report, translation and extension settings; the Ctrl+U shortcut; and the button and pop-up
 * toggles `enableSDK`, `disableSDK` and `continueWithoutScreenshot`.
 */
module Sdk {
  import opened Wrappers
  import opened BugReport
  import opened Views
  import Dom

  /**
   * The options object handed to `initSDK`. A missing property is `None`; `noLocalStorage` is
   * its truthiness.
   */
  datatype Options = Options(
    zapierWebhookUrl: Option<string>,
    cloudinaryCloudName: Option<string>,
    cloudinaryUploadPreset: Option<string>,
    noLocalStorage: bool,
    translation: Option<map<string, string>>,
    logSource: Option<LogSource>,
    html2canvas: Option<Html2Canvas>,
    offerDownloadPlugin: Option<bool>,
    descriptionMaxLength: Option<int>)

  /** The guard of `initSDK` lets the options through: they exist and all three integration strings are non-empty. */
  function Accepts(options: Option<Options>): (r: bool)
    ensures r <==> options.Some? && options.value.zapierWebhookUrl.Some? && options.value.zapierWebhookUrl.value != ""
                   && options.value.cloudinaryCloudName.Some? && options.value.cloudinaryCloudName.value != ""
                   && options.value.cloudinaryUploadPreset.Some? && options.value.cloudinaryUploadPreset.value != ""
  {
    !(options.None? || !Truthy(options.value.zapierWebhookUrl)
      || !(Truthy(options.value.cloudinaryCloudName) && Truthy(options.value.cloudinaryUploadPreset)))
  }

  /**
   * `initSDK(options)`: rejected options change nothing. Accepted ones set the webhook URL and
   * the Cloudinary account, disable local-storage capture when asked, replace the translation
   * table when one is given, always replace the log source, set html2canvas when given, always
   * copy the two extension options, and register one more keydown listener.
   */
  method InitSdk(options: Option<Options>, config: ReportConfig, translation: Translation,
                 extension: ExtensionState, page: Dom.Page)
    returns (accepted: bool)
    modifies config, translation, extension, page
    ensures accepted <==> Accepts(options)
    ensures !accepted ==> unchanged(config, translation, extension, page)
    ensures accepted ==> config.GetZapierHookUrl() == options.value.zapierWebhookUrl
    ensures accepted ==>
      var o := options.value;
      && config.integration == IntegrationData(o.zapierWebhookUrl, o.cloudinaryCloudName, o.cloudinaryUploadPreset)
      && config.attachLocalStorage == (old(config.attachLocalStorage) && !o.noLocalStorage)
      && config.logSource == o.logSource
      && translation.current == (if o.translation.Some? then o.translation.value else old(translation.current))
      && extension.html2canvas == (if o.html2canvas.Some? then o.html2canvas else old(extension.html2canvas))
      && extension.offerDownloadPlugin == o.offerDownloadPlugin
      && extension.descriptionMaxLength == o.descriptionMaxLength
      && page.keydownListeners == old(page.keydownListeners) + 1
      && page.elements == old(page.elements) && page.sdkElements == old(page.sdkElements)
      && page.bodyClasses == old(page.bodyClasses)
  {
    accepted := Accepts(options);
    if !accepted {
      return;
    }
    var o := options.value;
    if Truthy(o.zapierWebhookUrl) {
      config.SetZapierHookUrl(o.zapierWebhookUrl.value);
    } else {
      assert false;
    }
    if Truthy(o.cloudinaryCloudName) && Truthy(o.cloudinaryUploadPreset) {
      config.SetCloudinaryIntegration(o.cloudinaryCloudName.value, o.cloudinaryUploadPreset.value);
    } else {
      assert false;
    }
    if o.noLocalStorage {
      config.DisableLocalStorage();
    }
    if o.translation.Some? {
      translation.current := o.translation.value;
    }
    config.SetLogSource(o.logSource);
    if o.html2canvas.Some? {
      extension.html2canvas := o.html2canvas;
    }
    extension.offerDownloadPlugin := o.offerDownloadPlugin;
    extension.descriptionMaxLength := o.descriptionMaxLength;
    page.AddKeydownListener();
  }

  /** The key code of `U`. */
  const UKeyCode := 85

  /** The keydown listener opens the widget on Ctrl+U and on nothing else. */
  function ShortcutInvokes(which: int, ctrlKey: bool): (r: bool)
    ensures r <==> ctrlKey && which == 'U' as int
  {
    which == UKeyCode && ctrlKey
  }

  /**
   * A key press on `<body>`: each registered listener runs `initBugreportViews` on Ctrl+U. The
   * first run adds the windows when they are missing; every later run finds the form and does
   * nothing, so the page ends as after a single run.
   */
  method OnKeydown(page: Dom.Page, extension: ExtensionState, pluginAttribute: Option<string>,
                   isMobile: bool, which: int, ctrlKey: bool)
    returns (requests: seq<ScreenshotRequest>)
    requires page.Valid()
    modifies page
    ensures page.Valid()
    ensures !ShortcutInvokes(which, ctrlKey) || old(page.keydownListeners) == 0 ==> unchanged(page)
    ensures |requests| == if ShortcutInvokes(which, ctrlKey) then old(page.keydownListeners) else 0
    ensures forall k :: 1 <= k < |requests| ==> requests[k] == NoScreenshot
    ensures ShortcutInvokes(which, ctrlKey) && old(page.keydownListeners) > 0 ==>
            page.elements == Initialized(old(page.elements), isMobile,
                                         IsInstalled(extension.html2canvas, pluginAttribute),
                                         PluginIsInstalled(pluginAttribute))
    ensures ShortcutInvokes(which, ctrlKey) && old(page.keydownListeners) > 0 ==>
            page.sdkElements == old(page.sdkElements) +
                                (if Dom.FormContainer in old(page.elements) then [] else Dom.Windows)
    ensures ShortcutInvokes(which, ctrlKey) && old(page.keydownListeners) > 0 ==>
            requests[0] == if Dom.FormContainer in old(page.elements) || isMobile ||
                              !IsInstalled(extension.html2canvas, pluginAttribute) then NoScreenshot
                           else TakeScreenShot(extension.html2canvas, pluginAttribute)
    ensures page.bodyClasses == old(page.bodyClasses)
    ensures page.keydownListeners == old(page.keydownListeners)
  {
    requests := [];
    if !ShortcutInvokes(which, ctrlKey) {
      return;
    }
    ghost var installed := IsInstalled(extension.html2canvas, pluginAttribute);
    ghost var pluginInstalled := PluginIsInstalled(pluginAttribute);
    ghost var windows := if Dom.FormContainer in page.elements then [] else Dom.Windows;
    ghost var first := if Dom.FormContainer in page.elements || isMobile || !installed then NoScreenshot
                       else TakeScreenShot(extension.html2canvas, pluginAttribute);
    var i := 0;
    while i < page.keydownListeners
      invariant page.Valid()
      invariant 0 <= i <= page.keydownListeners == old(page.keydownListeners)
      invariant |requests| == i
      invariant forall k :: 1 <= k < i ==> requests[k] == NoScreenshot
      invariant i == 0 ==> unchanged(page)
      invariant i > 0 ==> page.elements == Initialized(old(page.elements), isMobile, installed, pluginInstalled)
      invariant i > 0 ==> page.sdkElements == old(page.sdkElements) + windows && requests[0] == first
      invariant page.bodyClasses == old(page.bodyClasses)
      modifies page
    {
      ghost var prev := page.elements;
      if i > 0 {
        InitializedHasForm(old(page.elements), isMobile, installed, pluginInstalled);
      }
      var request := InitBugreportViews(page, extension, pluginAttribute, isMobile);
      if i > 0 {
        InitializedIdempotent(old(page.elements), isMobile, installed, pluginInstalled);
        assert page.elements == prev;
      }
      requests := requests + [request];
      i := i + 1;
    }
  }

  const SdkButton := "instabugSDK"
  const HiddenClass := "u-hide"

  /** `disableSDK()`: hides the widget's button by giving it `u-hide`. */
  method DisableSdk(page: Dom.Page)
    modifies page
    ensures old(page.Valid()) ==> page.Valid()
    ensures page.elements == Dom.Classed(old(page.elements), SdkButton, HiddenClass, true)
    ensures page.sdkElements == old(page.sdkElements) && page.bodyClasses == old(page.bodyClasses)
    ensures page.keydownListeners == old(page.keydownListeners)
  {
    page.AddClass(SdkButton, HiddenClass);
  }

  /** `enableSDK()`: shows the widget's button again by removing `u-hide`. */
  method EnableSdk(page: Dom.Page)
    modifies page
    ensures old(page.Valid()) ==> page.Valid()
    ensures page.elements == Dom.Classed(old(page.elements), SdkButton, HiddenClass, false)
    ensures page.sdkElements == old(page.sdkElements) && page.bodyClasses == old(page.bodyClasses)
    ensures page.keydownListeners == old(page.keydownListeners)
  {
    page.RemoveClass(SdkButton, HiddenClass);
  }

  /**
   * Disabling, however often, and then enabling gives back the page as it was, when the button
   * did not carry `u-hide` to begin with; after disabling it does carry it, after enabling it does not.
   */
  lemma DisableThenEnable(m: map<string, Dom.Element>)
    requires SdkButton in m ==> HiddenClass !in m[SdkButton].classes
    ensures var off := Dom.Classed(m, SdkButton, HiddenClass, true);
      && Dom.Classed(off, SdkButton, HiddenClass, true) == off
      && Dom.Classed(off, SdkButton, HiddenClass, false) == m
      && (SdkButton in m ==> HiddenClass in off[SdkButton].classes)
      && (SdkButton in m ==> HiddenClass !in Dom.Classed(off, SdkButton, HiddenClass, false)[SdkButton].classes)
  {
    var off := Dom.Classed(m, SdkButton, HiddenClass, true);
    if SdkButton in m {
      assert off[SdkButton].classes + {HiddenClass} == off[SdkButton].classes;
      assert off[SdkButton].classes - {HiddenClass} == m[SdkButton].classes;
      assert off[SdkButton].(classes := m[SdkButton].classes) == m[SdkButton];
    }
  }

  /** The element map after `continueWithoutScreenshot` on `m`. */
  function ContinueView(m: map<string, Dom.Element>): map<string, Dom.Element> {
    Dom.Display(Dom.Display(m, Dom.ExtensionPopUp, false), Dom.FormContainer, true)
  }

  /**
   * After `continueWithoutScreenshot`, the pop-up is hidden and the form shown, each when it
   * exists; no element is added and nothing else changes.
   */
  lemma ContinueViewVisibility(m: map<string, Dom.Element>)
    ensures var r := ContinueView(m);
      && r.Keys == m.Keys
      && (Dom.ExtensionPopUp in m ==> r[Dom.ExtensionPopUp] == m[Dom.ExtensionPopUp].(shown := false))
      && (Dom.FormContainer in m ==> r[Dom.FormContainer] == m[Dom.FormContainer].(shown := true))
      && (forall id :: id in m && id != Dom.ExtensionPopUp && id != Dom.FormContainer ==> r[id] == m[id])
  {
    assert Dom.ExtensionPopUp != Dom.FormContainer;
  }

  /** `continueWithoutScreenshot()`: hides the pop-up if it exists, then shows the form if it exists. */
  method ContinueWithoutScreenshot(page: Dom.Page)
    modifies page
    ensures old(page.Valid()) ==> page.Valid()
    ensures page.elements == ContinueView(old(page.elements))
    ensures page.sdkElements == old(page.sdkElements) && page.bodyClasses == old(page.bodyClasses)
    ensures page.keydownListeners == old(page.keydownListeners)
  {
    if page.IsExisted(Dom.ExtensionPopUp) {
      page.Hide(Dom.ExtensionPopUp);
    }
    if page.IsExisted(Dom.FormContainer) {
      page.Show(Dom.FormContainer);
    }
  }
}
