/**
 * String helpers with the semantics of the JavaScript built-ins the source uses:
 * `indexOf`, `split`, `join`, number-to-string and the ASCII case folding that a
 * regular expression with the `i` flag applies to an ASCII pattern.
 */
module Text {
  import opened Wrappers

  /** What `String(x)` and a template literal give for a value that may be `undefined`. */
  function JsString(x: Option<string>): string {
    x.GetOr("undefined")
  }

  /** Lower-cases ASCII letters and leaves every other character alone. */
  function LowerAscii(c: char): (r: char)
    ensures 'A' <= c <= 'Z' ==> r as int == c as int + 32
    ensures !('A' <= c <= 'Z') ==> r == c
  {
    if 'A' <= c <= 'Z' then (c as int + 32) as char else c
  }

  /** `p` occurs in `s` at index `i`, case-sensitively. */
  predicate OccursAt(s: string, i: nat, p: string) {
    i + |p| <= |s| && s[i..i + |p|] == p
  }

  /** `p` occurs somewhere in `s`. */
  predicate Contains(s: string, p: string) {
    exists i: nat :: i <= |s| && OccursAt(s, i, p)
  }

  /** The lower-case ASCII pattern `p` occurs in `s` at index `i`, ignoring ASCII case. */
  predicate OccursAtIgnoreCase(s: string, i: nat, p: string) {
    i + |p| <= |s| && forall j :: 0 <= j < |p| ==> LowerAscii(s[i + j]) == p[j]
  }

  /** A case-insensitive search for the lower-case ASCII pattern `p`, without metacharacters, succeeds in `s`. */
  predicate ContainsIgnoreCase(s: string, p: string) {
    exists i: nat :: i <= |s| && OccursAtIgnoreCase(s, i, p)
  }

  /** A pattern whose first character never occurs in `s` does not occur in it. */
  lemma NotContainedWithoutFirstChar(s: string, p: string)
    requires |p| > 0 && p[0] !in s
    ensures !Contains(s, p)
  {
    forall i: nat | i <= |s| ensures !OccursAt(s, i, p) {
      if i + |p| <= |s| {
        assert s[i..i + |p|][0] == s[i];
      }
    }
  }

  /** The case-insensitive counterpart of NotContainedWithoutFirstChar. */
  lemma NotContainedIgnoreCaseWithoutFirstChar(s: string, p: string)
    requires |p| > 0
    requires forall k :: 0 <= k < |s| ==> LowerAscii(s[k]) != p[0]
    ensures !ContainsIgnoreCase(s, p)
  {
    forall i: nat | i <= |s| ensures !OccursAtIgnoreCase(s, i, p) {
      if i + |p| <= |s| {
        assert LowerAscii(s[i + 0]) != p[0];
      }
    }
  }

  /** A case-insensitive search fails when no character of `s` lower-cases to the pattern's `j`-th. */
  lemma NotContainedIgnoreCaseWithoutChar(s: string, p: string, j: nat)
    requires j < |p|
    requires forall k :: 0 <= k < |s| ==> LowerAscii(s[k]) != p[j]
    ensures !ContainsIgnoreCase(s, p)
  {
    forall i: nat | i <= |s| ensures !OccursAtIgnoreCase(s, i, p) {
      if i + |p| <= |s| {
        assert LowerAscii(s[i + j]) != p[j];
      }
    }
  }

  /** The first index of `c` in `s`; None where `indexOf` gives -1. */
  function IndexOf(s: string, c: char): (r: Option<nat>)
    ensures r.Some? ==> r.value < |s| && s[r.value] == c && forall k :: 0 <= k < r.value ==> s[k] != c
  {
    if |s| == 0 then None
    else if s[0] == c then Some(0)
    else
      match IndexOf(s[1..], c)
      case None => None
      case Some(i) => Some(i + 1)
  }

  /** `indexOf` gives -1 exactly when `c` does not occur. */
  lemma {:induction false} IndexOfNone(s: string, c: char)
    ensures IndexOf(s, c).None? <==> c !in s
    decreases |s|
  {
    if |s| > 0 && s[0] != c {
      IndexOfNone(s[1..], c);
      assert s == [s[0]] + s[1..];
    }
  }

  /** An index holding `c` with no `c` before it is the one `indexOf` finds. */
  lemma {:induction false} IndexOfIs(s: string, c: char, i: nat)
    requires i < |s| && s[i] == c && forall k :: 0 <= k < i ==> s[k] != c
    ensures IndexOf(s, c) == Some(i)
    decreases i
  {
    if i > 0 {
      assert s[0] != c;
      assert forall k :: 0 <= k < i - 1 ==> s[1..][k] == s[k + 1];
      IndexOfIs(s[1..], c, i - 1);
    }
  }

  /** Behind a prefix without `c`, `indexOf` finds no occurrence where the rest has none. */
  lemma IndexOfAfterPrefixNone(prefix: string, s: string, c: char)
    requires c !in prefix && IndexOf(s, c).None?
    ensures IndexOf(prefix + s, c).None?
  {
    IndexOfNone(s, c);
    IndexOfNone(prefix + s, c);
  }

  /** Behind a prefix without `c`, `indexOf` finds the same occurrence, shifted by the prefix. */
  lemma IndexOfAfterPrefix(prefix: string, s: string, c: char, i: nat)
    requires c !in prefix && IndexOf(s, c) == Some(i)
    ensures IndexOf(prefix + s, c) == Some(|prefix| + i)
  {
    var t := prefix + s;
    forall k | 0 <= k < |prefix| + i ensures t[k] != c {
      if k < |prefix| {
        assert t[k] == prefix[k];
      } else {
        assert t[k] == s[k - |prefix|];
      }
    }
    IndexOfIs(t, c, |prefix| + i);
  }

  /** In `a + [c] + b` with no `c` in `a`, `indexOf` finds the `c` after `a`. */
  lemma IndexOfAfter(a: string, c: char, b: string)
    requires c !in a
    ensures IndexOf(a + [c] + b, c) == Some(|a|)
  {
    IndexOfIs([c] + b, c, 0);
    IndexOfAfterPrefix(a, [c] + b, c, 0);
    assert a + [c] + b == a + ([c] + b);
  }

  lemma ConcatAssoc(a: string, b: string, c: string, d: string)
    ensures a + (b + c + d) == (a + b) + c + d
  {
  }

  /** A suffix of `a + b` that lies in `b`. */
  lemma SuffixOfSuffix(a: string, b: string, lo: nat)
    requires lo <= |b|
    ensures (a + b)[|a| + lo..] == b[lo..]
  {
  }

  /** A slice of `a + b` that lies in `b`. */
  lemma SliceOfSuffix(a: string, b: string, lo: nat, hi: nat)
    requires lo <= hi <= |b|
    ensures (a + b)[|a| + lo..|a| + hi] == b[lo..hi]
  {
  }

  /** Splitting `s` at a one-character separator: the pieces between the occurrences of `c`. */
  function Split(s: string, c: char): (r: seq<string>)
    ensures |r| >= 1
    ensures forall k :: 0 <= k < |r| ==> c !in r[k]
    decreases |s|
  {
    match IndexOf(s, c)
    case None => IndexOfNone(s, c); [s]
    case Some(i) =>
      assert forall k :: 0 <= k < i ==> s[..i][k] != c;
      [s[..i]] + Split(s[i + 1..], c)
  }

  /** The items with `sep` between each two; the empty list joins to the empty string. */
  function Join(items: seq<string>, sep: string): string {
    if |items| == 0 then ""
    else if |items| == 1 then items[0]
    else items[0] + sep + Join(items[1..], sep)
  }

  /** Splitting a joined list at its separator gives the list back, when no item holds the separator. */
  lemma {:induction false} SplitJoin(items: seq<string>, c: char)
    requires |items| >= 1
    requires forall k :: 0 <= k < |items| ==> c !in items[k]
    ensures Split(Join(items, [c]), c) == items
  {
    if |items| > 1 {
      var rest := Join(items[1..], [c]);
      var s := items[0] + [c] + rest;
      IndexOfAfter(items[0], c, rest);
      assert s[..|items[0]|] == items[0];
      assert s[|items[0]| + 1..] == rest;
      SplitJoin(items[1..], c);
      assert [items[0]] + items[1..] == items;
    }
  }

  /** The decimal digit of `d`. */
  function Digit(d: nat): (r: char)
    requires d < 10
    ensures '0' <= r <= '9' && r as int - '0' as int == d
  {
    ('0' as int + d) as char
  }

  /** The value of a decimal digit character. */
  function DigitValue(c: char): nat
    requires '0' <= c <= '9'
  {
    c as int - '0' as int
  }

  predicate IsDigits(s: string) {
    forall k :: 0 <= k < |s| ==> '0' <= s[k] <= '9'
  }

  /** The decimal form of `n`, as JavaScript writes a non-negative integer into a template literal. */
  function NatToString(n: nat): (r: string)
    ensures |r| >= 1 && IsDigits(r)
    ensures r[0] == '0' ==> n == 0 && r == "0"
  {
    if n < 10 then [Digit(n)] else NatToString(n / 10) + [Digit(n % 10)]
  }

  /** Reads a string of decimal digits back as a number: the inverse of NatToString. */
  function ParseNat(s: string): nat
    requires IsDigits(s)
  {
    if |s| == 0 then 0 else 10 * ParseNat(s[..|s| - 1]) + DigitValue(s[|s| - 1])
  }

  lemma {:induction false} ParseNatToString(n: nat)
    ensures ParseNat(NatToString(n)) == n
  {
    if n >= 10 {
      var s := NatToString(n / 10) + [Digit(n % 10)];
      assert s[..|s| - 1] == NatToString(n / 10);
      ParseNatToString(n / 10);
    }
  }

  /** Different numbers are written differently. */
  lemma NatToStringInjective(m: nat, n: nat)
    requires NatToString(m) == NatToString(n)
    ensures m == n
  {
    ParseNatToString(m);
    ParseNatToString(n);
  }
}
