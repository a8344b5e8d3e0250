/**
 * The `%key%` placeholders of the widget's HTML templates and their replacement, as
 * `translate` performs it with `String.prototype.replace` and a callback.
 */
module Templates {
  import opened Wrappers
  import opened Text

  /** The table's entry for `key`; None where the lookup gives `undefined`. */
  function Lookup(table: map<string, string>, key: string): Option<string> {
    if key in table then Some(table[key]) else None
  }

  /**
   * Global replacement of the placeholders through a callback: scanning from the left, text outside placeholders
   * is kept; a `%` with a later `%` starts a placeholder, replaced by what the callback returns
   * for the key between the two; a `%` with no later `%` and everything after it are kept.
   */
  function Substitute(html: string, entry: string -> string): string
    decreases |html|
  {
    if html == [] then []
    else if html[0] != '%' then [html[0]] + Substitute(html[1..], entry)
    else
      match IndexOf(html[1..], '%')
      case None => html
      case Some(j) => entry(html[1..1 + j]) + Substitute(html[j + 2..], entry)
  }

  /** The callback of `translate`: the table's entry for the key, so a missing key gives `undefined`. */
  function TableEntry(table: map<string, string>): string -> string {
    key => JsString(Lookup(table, key))
  }

  /** `translate(html)` against the table `table`. */
  function Translate(html: string, table: map<string, string>): (r: string)
    ensures '%' !in html ==> r == html
    ensures |html| >= 2 && html[0] == '%' && html[|html| - 1] == '%' && '%' !in html[1..|html| - 1] ==>
              r == JsString(Lookup(table, html[1..|html| - 1]))
  {
    if |html| >= 2 && html[0] == '%' && html[|html| - 1] == '%' && '%' !in html[1..|html| - 1] then
      var key := html[1..|html| - 1];
      assert html == "%" + key + "%" + "";
      SubstitutePlaceholderPrefix(key, "", TableEntry(table));
      Substitute(html, TableEntry(table))
    else if '%' !in html then
      SubstituteNoPercent(html, TableEntry(table));
      Substitute(html, TableEntry(table))
    else Substitute(html, TableEntry(table))
  }

  /** A template seen as a series of literal texts and `%key%` placeholders. */
  datatype Piece = Literal(text: string) | Placeholder(key: string)

  /** The text of one piece as it stands in the template. */
  function PieceText(p: Piece): string {
    match p
    case Literal(text) => text
    case Placeholder(key) => "%" + key + "%"
  }

  /** The text a piece becomes once substituted. */
  function PieceFill(p: Piece, entry: string -> string): string {
    match p
    case Literal(text) => text
    case Placeholder(key) => entry(key)
  }

  /** Neither a literal nor a key holds a `%`. */
  predicate PieceWellFormed(p: Piece) {
    '%' !in (if p.Literal? then p.text else p.key)
  }

  predicate WellFormed(pieces: seq<Piece>) {
    forall k :: 0 <= k < |pieces| ==> PieceWellFormed(pieces[k])
  }

  /** The template text the pieces spell. */
  function Render(pieces: seq<Piece>): string {
    if pieces == [] then "" else PieceText(pieces[0]) + Render(pieces[1..])
  }

  /** The text with every placeholder replaced by its entry. */
  function Fill(pieces: seq<Piece>, entry: string -> string): string {
    if pieces == [] then "" else PieceFill(pieces[0], entry) + Fill(pieces[1..], entry)
  }

  /** Literal text in front passes through unchanged. */
  lemma {:induction false} SubstituteLiteralPrefix(text: string, rest: string, entry: string -> string)
    requires '%' !in text
    ensures Substitute(text + rest, entry) == text + Substitute(rest, entry)
    decreases |text|
  {
    if text != [] {
      var html := text + rest;
      assert html[0] == text[0] && text[0] in text;
      assert html[1..] == text[1..] + rest;
      SubstituteLiteralPrefix(text[1..], rest, entry);
      assert [text[0]] + text[1..] == text;
    } else {
      assert text + rest == rest;
    }
  }

  /** A string without `%` is returned as it is. */
  lemma SubstituteNoPercent(html: string, entry: string -> string)
    requires '%' !in html
    ensures Substitute(html, entry) == html
  {
    SubstituteLiteralPrefix(html, "", entry);
    assert html + "" == html;
  }

  /** A placeholder in front is replaced by its entry. */
  lemma SubstitutePlaceholderPrefix(key: string, rest: string, entry: string -> string)
    requires '%' !in key
    ensures Substitute("%" + key + "%" + rest, entry) == entry(key) + Substitute(rest, entry)
  {
    var html := "%" + key + "%" + rest;
    assert html[1..] == key + "%" + rest;
    IndexOfAfter(key, '%', rest);
    assert html[1..1 + |key|] == key;
    assert html[|key| + 2..] == rest;
  }

  /** A `%` with no later `%` keeps itself and everything after it. */
  lemma SubstituteUnpaired(tail: string, entry: string -> string)
    requires '%' !in tail
    ensures Substitute("%" + tail, entry) == "%" + tail
  {
    var html := "%" + tail;
    assert html[1..] == tail;
    IndexOfNone(tail, '%');
  }

  /** One piece in front is substituted on its own. */
  lemma SubstitutePiece(p: Piece, rest: string, entry: string -> string)
    requires PieceWellFormed(p)
    ensures Substitute(PieceText(p) + rest, entry) == PieceFill(p, entry) + Substitute(rest, entry)
  {
    match p
    case Literal(text) => SubstituteLiteralPrefix(text, rest, entry);
    case Placeholder(key) => SubstitutePlaceholderPrefix(key, rest, entry);
  }

  /**
   * Substituting in a template replaces each placeholder by its entry and leaves the literal
   * text around the placeholders as it is; whatever follows the template is substituted on its own.
   */
  lemma {:induction false} SubstitutePieces(pieces: seq<Piece>, tail: string, entry: string -> string)
    requires WellFormed(pieces)
    ensures Substitute(Render(pieces) + tail, entry) == Fill(pieces, entry) + Substitute(tail, entry)
    decreases |pieces|
  {
    if pieces == [] {
      assert Render(pieces) + tail == tail;
    } else {
      assert WellFormed(pieces[1..]) by {
        forall k | 0 <= k < |pieces[1..]| ensures PieceWellFormed(pieces[1..][k]) {
          assert pieces[1..][k] == pieces[k + 1];
        }
      }
      assert PieceWellFormed(pieces[0]);
      var rest := Render(pieces[1..]) + tail;
      var last := Substitute(tail, entry);
      SubstitutePieces(pieces[1..], tail, entry);
      assert Render(pieces) + tail == PieceText(pieces[0]) + rest;
      SubstitutePiece(pieces[0], rest, entry);
      assert Fill(pieces, entry) + last == PieceFill(pieces[0], entry) + (Fill(pieces[1..], entry) + last);
    }
  }

  /** A template followed by one unpaired `%` and more text without `%`: that end is kept as is. */
  lemma SubstituteUnpairedPercent(pieces: seq<Piece>, tail: string, entry: string -> string)
    requires WellFormed(pieces) && '%' !in tail
    ensures Substitute(Render(pieces) + "%" + tail, entry) == Fill(pieces, entry) + "%" + tail
  {
    SubstitutePieces(pieces, "%" + tail, entry);
    assert Render(pieces) + "%" + tail == Render(pieces) + ("%" + tail);
    SubstituteUnpaired(tail, entry);
  }
}
