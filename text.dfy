/** Character and string primitives the frontend (ECMAScript) and the backend (Java)
    rely on: trimming, case folding, prefixes. */
module Text {

  datatype Option<T> = None | Some(value: T) {
    /** The wrapped value, or `default` when there is none. */
    function GetOr(default: T): T {
      match this
      case Some(v) => v
      case None => default
    }
  }

  /** The code points String.prototype.trim removes: ECMAScript's WhiteSpace
      (tab, vertical tab, form feed, no-break space, byte-order mark and the
      space separators of Unicode category Zs) and LineTerminator. */
  predicate IsJsSpace(c: char) {
    || c == '\t' || c == '\U{000B}' || c == '\U{000C}' || c == ' ' || c == '\U{00A0}' || c == '\U{FEFF}'
    || c == '\U{1680}' || ('\U{2000}' <= c <= '\U{200A}') || c == '\U{202F}' || c == '\U{205F}' || c == '\U{3000}'
    || c == '\n' || c == '\r' || c == '\U{2028}' || c == '\U{2029}'
  }

  /** Number of white-space characters at the start of `s`. */
  function LeadingSpaces(s: string): (n: nat)
    ensures n <= |s|
    ensures forall k :: 0 <= k < n ==> IsJsSpace(s[k])
    ensures n == |s| || !IsJsSpace(s[n])
  {
    if s != [] && IsJsSpace(s[0]) then 1 + LeadingSpaces(s[1..]) else 0
  }

  /** Number of white-space characters at the end of `s`. */
  function TrailingSpaces(s: string): (n: nat)
    ensures n <= |s|
    ensures forall k :: |s| - n <= k < |s| ==> IsJsSpace(s[k])
    ensures n == |s| || !IsJsSpace(s[|s| - 1 - n])
  {
    if s != [] && IsJsSpace(s[|s| - 1]) then 1 + TrailingSpaces(s[..|s| - 1]) else 0
  }

  /** String.prototype.trim: `s` without its leading and trailing white space. */
  function Trim(s: string): (r: string)
    ensures LeadingSpaces(s) + |r| <= |s|
    ensures r == s[LeadingSpaces(s)..LeadingSpaces(s) + |r|]
    ensures forall k :: 0 <= k < LeadingSpaces(s) ==> IsJsSpace(s[k])
    ensures forall k :: LeadingSpaces(s) + |r| <= k < |s| ==> IsJsSpace(s[k])
    ensures r != [] ==> !IsJsSpace(r[0]) && !IsJsSpace(r[|r| - 1])
    ensures r == [] <==> forall k :: 0 <= k < |s| ==> IsJsSpace(s[k])
  {
    var t := s[LeadingSpaces(s)..];
    t[..|t| - TrailingSpaces(t)]
  }

  predicate AllSpaces(s: string) {
    forall k :: 0 <= k < |s| ==> IsJsSpace(s[k])
  }

  lemma {:induction false} LeadingSpacesOf(a: string, rest: string)
    requires AllSpaces(a)
    requires rest == [] || !IsJsSpace(rest[0])
    ensures LeadingSpaces(a + rest) == |a|
  {
    if a != [] {
      assert (a + rest)[1..] == a[1..] + rest;
      LeadingSpacesOf(a[1..], rest);
    } else {
      assert a + rest == rest;
    }
  }

  lemma {:induction false} TrailingSpacesOf(rest: string, b: string)
    requires AllSpaces(b)
    requires rest == [] || !IsJsSpace(rest[|rest| - 1])
    ensures TrailingSpaces(rest + b) == |b|
  {
    if b != [] {
      var s := rest + b;
      assert s[..|s| - 1] == rest + b[..|b| - 1];
      TrailingSpacesOf(rest, b[..|b| - 1]);
    } else {
      assert rest + b == rest;
    }
  }

  /** Trimming removes exactly the white space around a word that neither starts nor
      ends with white space. */
  lemma TrimPadded(a: string, w: string, b: string)
    requires AllSpaces(a) && AllSpaces(b)
    requires w != [] && !IsJsSpace(w[0]) && !IsJsSpace(w[|w| - 1])
    ensures Trim(a + w + b) == w
  {
    assert a + w + b == a + (w + b);
    LeadingSpacesOf(a, w + b);
    assert (a + (w + b))[|a|..] == w + b;
    TrailingSpacesOf(w, b);
    assert (w + b)[..|w + b| - |b|] == w;
  }

  /** `s.trim()` is falsy in ECMAScript: the string is empty or all white space. */
  predicate IsBlank(s: string) {
    Trim(s) == ""
  }

  predicate IsAsciiUpper(c: char) {
    'A' <= c <= 'Z'
  }

  /** Case folding restricted to ASCII: upper-case Latin letters become lower case,
      every other character is left alone. */
  function LowerChar(c: char): (r: char)
    ensures IsAsciiUpper(c) ==> r as int == c as int + 32
    ensures !IsAsciiUpper(c) ==> r == c
  {
    if IsAsciiUpper(c) then (c as int + 32) as char else c
  }

  function Lower(s: string): (r: string)
    ensures |r| == |s|
    ensures forall k :: 0 <= k < |s| ==> r[k] == LowerChar(s[k])
  {
    seq(|s|, k requires 0 <= k < |s| => LowerChar(s[k]))
  }

  /** `s.slice(0, n)`: the first `n` characters of `s`, or all of `s` when it is shorter. */
  function Prefix(s: string, n: nat): (r: string)
    ensures |r| == if |s| < n then |s| else n
    ensures r <= s
  {
    if |s| <= n then s else s[..n]
  }

  /** A preview: the first `n` characters of `text` followed by the marker "...",
      which is appended whether or not anything was cut. */
  function Snippet(text: string, n: nat): (r: string)
    ensures 3 <= |r| <= n + 3
    ensures r[..|r| - 3] <= text && r[|r| - 3..] == "..."
    ensures |text| <= n ==> r == text + "..."
    ensures n <= |text| ==> |r| == n + 3
  {
    Prefix(text, n) + "..."
  }

  /** Java's `Character` case mappings that carry a character outside ASCII onto the
      ASCII lower-case letter `a`: dotless i and dotted capital I fold to 'i', long s
      to 's', and the Kelvin sign to 'k'. */
  predicate FoldsOntoAscii(c: char, a: char) {
    || (a == 'i' && (c == '\U{0131}' || c == '\U{0130}'))
    || (a == 's' && c == '\U{017F}')
    || (a == 'k' && c == '\U{212A}')
  }

  /** `String.equalsIgnoreCase` on one character pair, when the second character is
      ASCII: equal, or equal after Java's upper-case / lower-case mappings. */
  predicate JavaCharEqualsIgnoreCase(c: char, a: char)
    requires a as int < 128
  {
    c == a || LowerChar(c) == LowerChar(a) || FoldsOntoAscii(c, LowerChar(a))
  }

  predicate IsAscii(s: string) {
    forall k :: 0 <= k < |s| ==> s[k] as int < 128
  }

  /** `s.equalsIgnoreCase(target)` in Java, for an ASCII `target`. */
  predicate JavaEqualsIgnoreCase(s: string, target: string)
    requires IsAscii(target)
  {
    |s| == |target| && forall k :: 0 <= k < |s| ==> JavaCharEqualsIgnoreCase(s[k], target[k])
  }

  /** Concatenation of a sequence of strings. */
  function Concat(parts: seq<string>): string {
    if parts == [] then [] else parts[0] + Concat(parts[1..])
  }

  lemma {:induction false} ConcatAppend(a: seq<string>, b: seq<string>)
    ensures Concat(a + b) == Concat(a) + Concat(b)
  {
    if a == [] {
      assert a + b == b;
    } else {
      assert (a + b)[1..] == a[1..] + b;
      ConcatAppend(a[1..], b);
    }
  }
}
