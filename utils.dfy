/** The helpers of the utils module: time shortening, `Object.assign` and data-URL decoding. */
module Utils {
  import opened Wrappers
  import opened Text

  /** Whole seconds in a span of milliseconds, rounded down. */
  function ShortifyTime(time: int): (r: int)
    ensures 1000 * r <= time < 1000 * (r + 1)
  {
    // Dafny's division by a positive divisor rounds down, like Math.floor
    time / 1000
  }

  // ---------------------------------------------------------------- assign

  /** A JavaScript object: its own properties, by name. */
  class JsObject<V> {
    var props: map<string, V>

    constructor (props: map<string, V>)
      ensures this.props == props
    {
      this.props := props;
    }
  }

  /**
   * A source object as `Object.keys` lists it: its own enumerable properties in order,
   * with their values; None stands for a `null` or `undefined` argument.
   */
  type Source<V> = Option<seq<(string, V)>>

  /** The properties of `m` after writing the entries of `es` one after another. */
  function Overlay<V>(m: map<string, V>, es: seq<(string, V)>): map<string, V> {
    if es == [] then m else Overlay(m, es[..|es| - 1])[es[|es| - 1].0 := es[|es| - 1].1]
  }

  /** The entries of all non-null sources, in argument order. */
  function SourceEntries<V>(rest: seq<Source<V>>): seq<(string, V)> {
    if rest == [] then []
    else SourceEntries(rest[..|rest| - 1]) + rest[|rest| - 1].GetOr([])
  }

  /** The property written by the last entry that names `k` wins. */
  lemma {:induction false} OverlayLastWins<V>(m: map<string, V>, es: seq<(string, V)>, i: nat)
    requires i < |es|
    requires forall j :: i < j < |es| ==> es[j].0 != es[i].0
    ensures es[i].0 in Overlay(m, es) && Overlay(m, es)[es[i].0] == es[i].1
  {
    if i < |es| - 1 {
      OverlayLastWins(m, es[..|es| - 1], i);
    }
  }

  /** A property that no entry names keeps its presence and its value. */
  lemma {:induction false} OverlayUntouched<V>(m: map<string, V>, es: seq<(string, V)>, k: string)
    requires forall j :: 0 <= j < |es| ==> es[j].0 != k
    ensures (k in Overlay(m, es)) == (k in m)
    ensures k in m ==> Overlay(m, es)[k] == m[k]
  {
    if es != [] {
      OverlayUntouched(m, es[..|es| - 1], k);
    }
  }

  /** The properties afterwards are those of the target and those the entries name. */
  lemma {:induction false} OverlayKeys<V>(m: map<string, V>, es: seq<(string, V)>)
    ensures Overlay(m, es).Keys == m.Keys + set j | 0 <= j < |es| :: es[j].0
  {
    if es != [] {
      var init := es[..|es| - 1];
      OverlayKeys(m, init);
      assert (set j | 0 <= j < |es| :: es[j].0) == (set j | 0 <= j < |init| :: init[j].0) + {es[|es| - 1].0};
    }
  }

  /** The entries of source `b` come after those of every earlier source `a`. */
  lemma {:induction false} SourceEntriesSplit<V>(rest: seq<Source<V>>, b: nat)
    requires b < |rest| && rest[b].Some?
    ensures SourceEntries(rest) == SourceEntries(rest[..b]) + rest[b].value + SourceEntries(rest[b + 1..])
    decreases |rest|
  {
    if b < |rest| - 1 {
      var init := rest[..|rest| - 1];
      assert init[..b] == rest[..b];
      assert init[b + 1..] == rest[b + 1..|rest| - 1];
      SourceEntriesSplit(init, b);
      assert rest[b + 1..][..|rest[b + 1..]| - 1] == rest[b + 1..|rest| - 1];
    } else {
      assert rest[..|rest| - 1] == rest[..b];
      assert rest[b + 1..] == [];
    }
  }

  /**
   * For a property that a later source `b` names and no source after `b` names,
   * the value of `b` wins over the target's and over every earlier source's.
   */
  lemma LaterSourceWins<V>(m: map<string, V>, rest: seq<Source<V>>, b: nat, i: nat)
    requires b < |rest| && rest[b].Some? && i < |rest[b].value|
    requires forall j :: i < j < |rest[b].value| ==> rest[b].value[j].0 != rest[b].value[i].0
    requires forall c, j :: b < c < |rest| && rest[c].Some? && 0 <= j < |rest[c].value| ==>
               rest[c].value[j].0 != rest[b].value[i].0
    ensures rest[b].value[i].0 in Overlay(m, SourceEntries(rest))
    ensures Overlay(m, SourceEntries(rest))[rest[b].value[i].0] == rest[b].value[i].1
  {
    var pre, src, post := SourceEntries(rest[..b]), rest[b].value, SourceEntries(rest[b + 1..]);
    SourceEntriesSplit(rest, b);
    var es := pre + src + post;
    forall j | |pre| + i < j < |es| ensures es[j].0 != es[|pre| + i].0 {
      if j < |pre| + |src| {
        assert es[j] == src[j - |pre|];
      } else {
        SourceEntriesFrom(rest[b + 1..], j - |pre| - |src|);
      }
    }
    OverlayLastWins(m, es, |pre| + i);
  }

  /** Every entry in the flattened list comes from some non-null source. */
  lemma {:induction false} SourceEntriesFrom<V>(rest: seq<Source<V>>, j: nat)
    requires j < |SourceEntries(rest)|
    ensures exists c, k :: 0 <= c < |rest| && rest[c].Some? && 0 <= k < |rest[c].value| &&
                           SourceEntries(rest)[j] == rest[c].value[k]
  {
    var init := rest[..|rest| - 1];
    var last := rest[|rest| - 1].GetOr([]);
    if j < |SourceEntries(init)| {
      SourceEntriesFrom(init, j);
      var c, k :| 0 <= c < |init| && init[c].Some? && 0 <= k < |init[c].value| &&
                  SourceEntries(init)[j] == init[c].value[k];
      assert rest[c] == init[c];
    } else {
      assert SourceEntries(rest)[j] == last[j - |SourceEntries(init)|];
    }
  }

  /**
   * `assign`: copies the own properties of each non-null source into the
   * target, in order, and returns the target itself; a null target becomes a new empty object.
   */
  method Assign<V>(target: JsObject?<V>, rest: seq<Source<V>>) returns (to: JsObject<V>)
    modifies target
    ensures target != null ==> to == target
    ensures target == null ==> fresh(to)
    ensures to.props == Overlay(old(if target == null then map[] else target.props), SourceEntries(rest))
  {
    if target == null {
      to := new JsObject(map[]);
    } else {
      to := target;
    }
    ghost var start := to.props;
    for index := 0 to |rest|
      invariant to.props == Overlay(start, SourceEntries(rest[..index]))
    {
      var nextSource := rest[index];
      ghost var done := SourceEntries(rest[..index]);
      assert rest[..index + 1][..index] == rest[..index];
      assert SourceEntries(rest[..index + 1]) == done + nextSource.GetOr([]);
      if nextSource.Some? {
        var keys := nextSource.value;
        assert done + keys[..0] == done;
        for i := 0 to |keys|
          invariant to.props == Overlay(start, done + keys[..i])
        {
          // every key that Object.keys lists passes the hasOwnProperty test
          assert (done + keys[..i + 1])[..|done| + i] == done + keys[..i];
          to.props := to.props[keys[i].0 := keys[i].1];
        }
        assert keys[..|keys|] == keys;
      } else {
        assert done + [] == done;
      }
    }
    assert rest[..|rest|] == rest;
  }

  // ---------------------------------------------------------------- data URLs

  /** A UTF-16 code unit, the unit of a JavaScript string. */
  newtype CodeUnit = x: int | 0 <= x < 0x1_0000

  /** An element of a `Uint8Array`. */
  newtype Byte = x: int | 0 <= x < 0x100

  datatype Blob = Blob(bytes: seq<Byte>, mimeType: string)

  datatype DataUriError =
    | InvalidEncoding    // atob throws on text that is not base64
    | NoMediaTypeField   // the header has no ':', so reading its second piece throws a TypeError

  /** Piece `n` of `s` split at `c`; None where there is no such piece. */
  function Field(s: string, c: char, n: nat): (r: Option<string>)
    ensures n == 0 ==> r.Some?
  {
    var parts := Split(s, c);
    if n < |parts| then Some(parts[n]) else None
  }

  /** The part of the URL before its first comma. */
  function Header(uri: string): string {
    Field(uri, ',', 0).value
  }

  /** The text the decoder is given: the piece between the first and second comma. */
  function Payload(uri: string): string {
    JsString(Field(uri, ',', 1))
  }

  /** The base64 decoder is chosen when the header mentions `base64`. */
  predicate UsesBase64(uri: string) {
    Contains(Header(uri), "base64")
  }

  /**
   * The media type: the second piece of the header split at ':' (the text between its first
   * and second ':'), cut at the first ';'.
   */
  function MediaType(uri: string): Option<string> {
    match Field(Header(uri), ':', 1)
    case None => None
    case Some(afterColon) => Field(afterColon, ';', 0)
  }

  /** The string the URL decodes to, or the decoder's failure. */
  function Decoded(uri: string, atob: string -> Option<seq<CodeUnit>>, unescape: string -> seq<CodeUnit>): Option<seq<CodeUnit>> {
    if UsesBase64(uri) then atob(Payload(uri)) else Some(unescape(Payload(uri)))
  }

  /** The blob a data URL converts to, as a value. */
  function BlobOf(uri: string, atob: string -> Option<seq<CodeUnit>>, unescape: string -> seq<CodeUnit>): Result<Blob, DataUriError> {
    match Decoded(uri, atob, unescape)
    case None => Failure(InvalidEncoding)
    case Some(text) =>
      match MediaType(uri)
      case None => Failure(NoMediaTypeField)
      case Some(mime) => Success(Blob(seq(|text|, i requires 0 <= i < |text| => (text[i] as int % 0x100) as Byte), mime))
  }

  /**
   * `dataURItoBlob`: decodes the payload with `atob` or `unescape` (both browser
   * functions, given as parameters), reads the media type, and copies the code units of the
   * decoded string into a byte array, each truncated to 8 bits as a `Uint8Array` stores it.
   */
  method DataUriToBlob(uri: string, atob: string -> Option<seq<CodeUnit>>, unescape: string -> seq<CodeUnit>)
    returns (r: Result<Blob, DataUriError>)
    ensures Decoded(uri, atob, unescape).None? ==> r == Failure(InvalidEncoding)
    ensures Decoded(uri, atob, unescape).Some? && MediaType(uri).None? ==> r == Failure(NoMediaTypeField)
    ensures r.Success? <==> Decoded(uri, atob, unescape).Some? && MediaType(uri).Some?
    ensures r.Success? ==>
      var text := Decoded(uri, atob, unescape).value;
      && r.value.mimeType == MediaType(uri).value
      && |r.value.bytes| == |text|
      && forall i :: 0 <= i < |text| ==> r.value.bytes[i] as int == text[i] as int % 0x100
    ensures r == BlobOf(uri, atob, unescape)
  {
    var header := Field(uri, ',', 0).value;
    var byteString: seq<CodeUnit>;
    if Contains(header, "base64") {
      var decoded := atob(JsString(Field(uri, ',', 1)));
      if decoded.None? {
        return Failure(InvalidEncoding);
      }
      byteString := decoded.value;
    } else {
      byteString := unescape(JsString(Field(uri, ',', 1)));
    }

    var afterColon := Field(header, ':', 1);
    if afterColon.None? {
      return Failure(NoMediaTypeField);
    }
    var mimeString := Field(afterColon.value, ';', 0).value;

    var ia := new Byte[|byteString|];
    for i := 0 to |byteString|
      invariant forall k :: 0 <= k < i ==> ia[k] as int == byteString[k] as int % 0x100
    {
      ia[i] := (byteString[i] as int % 0x100) as Byte;
    }
    assert ia[..] == seq(|byteString|, i requires 0 <= i < |byteString| => (byteString[i] as int % 0x100) as Byte);
    return Success(Blob(ia[..], mimeString));
  }

  /** With no comma in the header or the payload, the URL splits into exactly those two. */
  lemma HeaderAndPayload(header: string, text: string)
    requires ',' !in header && ',' !in text
    ensures Header(header + "," + text) == header && Payload(header + "," + text) == text
  {
    SplitAtFirst(header, ',', text);
    assert Split(text, ',') == [text];
  }

  /** A header `data:<type>;<parameters>`, with `,;:` absent from the type and `:` from the parameters. */
  lemma MediaTypeOfHeader(uri: string, mediaType: string, parameters: string)
    requires ',' !in mediaType && ';' !in mediaType && ':' !in mediaType && ':' !in parameters
    requires Header(uri) == "data:" + mediaType + ";" + parameters
    ensures MediaType(uri) == Some(mediaType)
  {
    var rest := mediaType + ";" + parameters;
    assert Header(uri) == "data" + ":" + rest;
    SplitAtFirst("data", ':', rest);
    assert ':' !in rest;
    assert Split(rest, ':') == [rest];
    SplitAtFirst(mediaType, ';', parameters);
  }

  /**
   * A URL of the form `data:<type>;base64,<text>`, where the type holds none of `,;:` and the
   * text no comma, is decoded from the text with the base64 decoder and carries that type.
   */
  lemma Base64DataUrl(mediaType: string, text: string)
    requires ',' !in mediaType && ';' !in mediaType && ':' !in mediaType && ',' !in text
    ensures var uri := "data:" + mediaType + ";base64," + text;
      && Header(uri) == "data:" + mediaType + ";base64"
      && Payload(uri) == text
      && UsesBase64(uri)
      && MediaType(uri) == Some(mediaType)
  {
    var header := "data:" + mediaType + ";base64";
    var uri := header + "," + text;
    assert uri == "data:" + mediaType + ";base64," + text;
    assert ',' !in header;
    HeaderAndPayload(header, text);
    assert header[|header| - 6..] == "base64";
    assert OccursAt(header, |header| - 6, "base64");
    MediaTypeOfHeader(uri, mediaType, "base64");
  }

  /** Splitting `a + [c] + b`, where `a` has no `c`, gives `a` followed by the pieces of `b`. */
  lemma SplitAtFirst(a: string, c: char, b: string)
    requires c !in a
    ensures Split(a + [c] + b, c) == [a] + Split(b, c)
  {
    var s := a + [c] + b;
    IndexOfAfter(a, c, b);
    assert s[..|a|] == a;
    assert s[|a| + 1..] == b;
  }
}
