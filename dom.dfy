/**
 * The host page as the widget sees it: the elements it can find by id, whether each is
 * displayed and which classes it carries, the classes of `<body>`, and the body's children
 * that carry the class `ibgsdk-element`, in document order.
 *
 * The source reaches the page through its `element` helper module (`show`, `hide`,
 * `addClass`, `removeClass`, `isExisted`); that module is not part of this model, so an
 * operation on an id the page does not hold is taken to change nothing.
 */
module Dom {

  datatype Element = Element(shown: bool, classes: set<string>)

  const FormContainer := "instabugFormContainer"
  const ExtensionPopUp := "extensionPopUp"
  const LoadingWindow := "instabugLoading"
  const ThankYouPage := "instabugThankYouPage"

  /** The four windows the widget adds to the page, in the order it adds them. */
  const Windows: seq<string> := [FormContainer, ExtensionPopUp, LoadingWindow, ThankYouPage]

  /** The ids of a list of elements. */
  function Ids(s: seq<string>): set<string> {
    set k | 0 <= k < |s| :: s[k]
  }

  predicate Distinct(s: seq<string>) {
    forall i, j :: 0 <= i < j < |s| ==> s[i] != s[j]
  }

  /** The element map after `show` (b) or `hide` (!b) of `id`. */
  function Display(m: map<string, Element>, id: string, b: bool): (r: map<string, Element>)
    ensures r.Keys == m.Keys
    ensures id in m ==> r[id] == m[id].(shown := b)
    ensures forall other :: other in m && other != id ==> r[other] == m[other]
  {
    if id in m then m[id := m[id].(shown := b)] else m
  }

  /** The element map after adding (b) or removing (!b) class `c` on `id`. */
  function Classed(m: map<string, Element>, id: string, c: string, b: bool): (r: map<string, Element>)
    ensures r.Keys == m.Keys
    ensures id in m ==> r[id].shown == m[id].shown
    ensures id in m ==> r[id].classes == if b then m[id].classes + {c} else m[id].classes - {c}
    ensures forall other :: other in m && other != id ==> r[other] == m[other]
  {
    if id !in m then m
    else m[id := m[id].(classes := if b then m[id].classes + {c} else m[id].classes - {c})]
  }

  /** The four windows are four different ids. */
  lemma WindowsDistinct()
    ensures Distinct(Windows)
    ensures Ids(Windows) == {FormContainer, ExtensionPopUp, LoadingWindow, ThankYouPage}
  {
    assert Windows[0] == FormContainer && Windows[1] == ExtensionPopUp;
    assert Windows[2] == LoadingWindow && Windows[3] == ThankYouPage;
    assert forall k :: 0 <= k < |Windows| ==> Windows[k] in {FormContainer, ExtensionPopUp, LoadingWindow, ThankYouPage};
  }

  /**
   * Appending the four windows, none of them on the page before, to a list of distinct SDK
   * elements keeps the elements distinct and puts every window among them.
   */
  lemma AppendWindows(s: seq<string>, keys: set<string>)
    requires Distinct(s) && Ids(s) <= keys
    requires forall k :: 0 <= k < |Windows| ==> Windows[k] !in keys
    ensures Distinct(s + Windows)
    ensures Ids(s + Windows) == Ids(s) + Ids(Windows)
    ensures forall k :: 0 <= k < |Windows| ==> Windows[k] in Ids(s + Windows)
  {
    WindowsDistinct();
    var t := s + Windows;
    forall i, j | 0 <= i < j < |t| ensures t[i] != t[j] {
      if j >= |s| && i < |s| {
        assert t[i] in Ids(s);
        assert t[j] == Windows[j - |s|];
      } else if i >= |s| {
        assert t[i] == Windows[i - |s|] && t[j] == Windows[j - |s|];
      }
    }
    forall id | id in Ids(t) ensures id in Ids(s) + Ids(Windows) {
      var k :| 0 <= k < |t| && t[k] == id;
      if k >= |s| {
        assert Windows[k - |s|] == id;
      }
    }
    forall id | id in Ids(s) + Ids(Windows) ensures id in Ids(t) {
      if id in Ids(s) {
        var k :| 0 <= k < |s| && s[k] == id;
        assert t[k] == id;
      } else {
        var k :| 0 <= k < |Windows| && Windows[k] == id;
        assert t[|s| + k] == id;
      }
    }
    forall k | 0 <= k < |Windows| ensures Windows[k] in Ids(t) {
      assert t[|s| + k] == Windows[k];
    }
  }

  /** The class that marks the widget's own elements. */
  const SdkClass := "ibgsdk-element"

  /** Appending one id adds exactly that id. */
  lemma IdsAppendOne(s: seq<string>, x: string)
    ensures Ids(s + [x]) == Ids(s) + {x}
  {
    var t := s + [x];
    assert t[|s|] == x;
    forall y | y in Ids(t) ensures y in Ids(s) + {x} {
      var k :| 0 <= k < |t| && t[k] == y;
      if k < |s| {
        assert s[k] == y;
      }
    }
    forall y | y in Ids(s) ensures y in Ids(t) {
      var k :| 0 <= k < |s| && s[k] == y;
      assert t[k] == y;
    }
  }

  /** The elements carrying the SDK class are exactly those listed as SDK elements. */
  predicate ClassMarksSdk(elements: map<string, Element>, sdkElements: seq<string>) {
    forall id :: id in elements ==> (SdkClass in elements[id].classes <==> id in Ids(sdkElements))
  }

  class Page {
    var elements: map<string, Element>
    var sdkElements: seq<string>
    var bodyClasses: set<string>
    /** How many `keydown` listeners the widget has registered on `<body>`. */
    var keydownListeners: nat

    /**
     * Every SDK element is on the page, once, and the SDK elements are exactly the elements
     * carrying the SDK class; and the widget's four windows are either all on the page as SDK
     * elements or all absent, since they are only added and removed together.
     */
    ghost predicate Valid()
      reads this
    {
      && Distinct(sdkElements)
      && Ids(sdkElements) <= elements.Keys
      && ClassMarksSdk(elements, sdkElements)
      && ((forall k :: 0 <= k < |Windows| ==> Windows[k] in Ids(sdkElements))
          || (forall k :: 0 <= k < |Windows| ==> Windows[k] !in elements))
    }

    /** A host page before the widget adds anything to it. */
    constructor (hostElements: map<string, Element>, hostBodyClasses: set<string>)
      requires forall k :: 0 <= k < |Windows| ==> Windows[k] !in hostElements
      requires forall id :: id in hostElements ==> SdkClass !in hostElements[id].classes
      ensures Valid()
      ensures elements == hostElements && sdkElements == [] && bodyClasses == hostBodyClasses
      ensures keydownListeners == 0
    {
      elements := hostElements;
      sdkElements := [];
      bodyClasses := hostBodyClasses;
      keydownListeners := 0;
    }

    /** Whether the element with this id is on the page and displayed. */
    function Shown(id: string): bool
      reads this
    {
      id in elements && elements[id].shown
    }

    /** Whether the element with this id is on the page. */
    function IsExisted(id: string): (r: bool)
      reads this
      ensures r <==> id in elements
    {
      id in elements
    }

    /** Shows the element with this id. */
    method Show(id: string)
      modifies this
      ensures old(Valid()) ==> Valid()
      ensures elements == Display(old(elements), id, true)
      ensures old(ClassMarksSdk(elements, sdkElements)) ==> ClassMarksSdk(elements, sdkElements)
      ensures sdkElements == old(sdkElements) && bodyClasses == old(bodyClasses)
      ensures keydownListeners == old(keydownListeners)
    {
      elements := Display(elements, id, true);
    }

    /** Hides the element with this id. */
    method Hide(id: string)
      modifies this
      ensures old(Valid()) ==> Valid()
      ensures elements == Display(old(elements), id, false)
      ensures old(ClassMarksSdk(elements, sdkElements)) ==> ClassMarksSdk(elements, sdkElements)
      ensures sdkElements == old(sdkElements) && bodyClasses == old(bodyClasses)
      ensures keydownListeners == old(keydownListeners)
    {
      elements := Display(elements, id, false);
    }

    /** Gives the element with this id the class `c`. */
    method AddClass(id: string, c: string)
      modifies this
      ensures old(Valid()) && c != SdkClass ==> Valid()
      ensures elements == Classed(old(elements), id, c, true)
      ensures sdkElements == old(sdkElements) && bodyClasses == old(bodyClasses)
      ensures keydownListeners == old(keydownListeners)
    {
      elements := Classed(elements, id, c, true);
    }

    /** Takes the class `c` from the element with this id. */
    method RemoveClass(id: string, c: string)
      modifies this
      ensures old(Valid()) && c != SdkClass ==> Valid()
      ensures elements == Classed(old(elements), id, c, false)
      ensures sdkElements == old(sdkElements) && bodyClasses == old(bodyClasses)
      ensures keydownListeners == old(keydownListeners)
    {
      elements := Classed(elements, id, c, false);
    }
  
    /**
     * Appends to `<body>` a new SDK element with this id and these classes, hidden.
     */
    method AppendHidden(id: string, classes: set<string>)
      requires id !in elements
      modifies this
      ensures elements == old(elements)[id := Element(false, classes)]
      ensures sdkElements == old(sdkElements) + [id]
      ensures old(ClassMarksSdk(elements, sdkElements)) && SdkClass in classes ==>
                ClassMarksSdk(elements, sdkElements)
      ensures bodyClasses == old(bodyClasses) && keydownListeners == old(keydownListeners)
    {
      IdsAppendOne(sdkElements, id);
      elements := elements[id := Element(false, classes)];
      sdkElements := sdkElements + [id];
    }

    /** Removes from `<body>` the first SDK element in document order. */
    method RemoveFirstSdkElement()
      requires |sdkElements| > 0
      modifies this
      ensures elements == old(elements) - {old(sdkElements)[0]}
      ensures sdkElements == old(sdkElements)[1..]
      ensures bodyClasses == old(bodyClasses) && keydownListeners == old(keydownListeners)
    {
      elements := elements - {sdkElements[0]};
      sdkElements := sdkElements[1..];
    }

    /** Takes the class `c` from `<body>`. */
    method RemoveBodyClass(c: string)
      modifies this
      ensures bodyClasses == old(bodyClasses) - {c}
      ensures elements == old(elements) && sdkElements == old(sdkElements)
      ensures keydownListeners == old(keydownListeners)
    {
      bodyClasses := bodyClasses - {c};
    }

    /** Registers one more keydown listener on `<body>`. */
    method AddKeydownListener()
      modifies this
      ensures keydownListeners == old(keydownListeners) + 1
      ensures elements == old(elements) && sdkElements == old(sdkElements) && bodyClasses == old(bodyClasses)
    {
      keydownListeners := keydownListeners + 1;
    }
  }
}
