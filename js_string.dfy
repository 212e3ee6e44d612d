/** The JavaScript string builtins the location hook relies on:
    `String.prototype.trim`, `split` with a one-character separator, and the
    UTF-16 `length` that the `maxlength` validator compares. */
module JsString {

  /** The code points `trim` removes: ECMAScript WhiteSpace (TAB, VT, FF, SP,
      NBSP, ZWNBSP and the Zs category) and LineTerminator (LF, CR, LS, PS). */
  predicate IsWhitespace(c: char) {
    c == '\t' || c == '\n' || c == '\U{B}' || c == '\U{C}' || c == '\r' || c == ' ' ||
    c == '\U{A0}' || c == '\U{1680}' || ('\U{2000}' <= c <= '\U{200A}') ||
    c == '\U{2028}' || c == '\U{2029}' || c == '\U{202F}' || c == '\U{205F}' ||
    c == '\U{3000}' || c == '\U{FEFF}'
  }

  predicate AllWhitespace(s: string) {
    forall i :: 0 <= i < |s| ==> IsWhitespace(s[i])
  }

  /** A string with no whitespace at either end. */
  predicate IsTrimmed(s: string) {
    s == [] || (!IsWhitespace(s[0]) && !IsWhitespace(s[|s| - 1]))
  }

  /** The length of the run of whitespace at the start of `s`. */
  function LeadingWhitespace(s: string): (n: nat)
    ensures n <= |s|
    ensures forall i :: 0 <= i < n ==> IsWhitespace(s[i])
    ensures n < |s| ==> !IsWhitespace(s[n])
    decreases |s|
  {
    if |s| > 0 && IsWhitespace(s[0]) then 1 + LeadingWhitespace(s[1..]) else 0
  }

  /** The length of the run of whitespace at the end of `s`. */
  function TrailingWhitespace(s: string): (n: nat)
    ensures n <= |s|
    ensures forall i :: |s| - n <= i < |s| ==> IsWhitespace(s[i])
    ensures n < |s| ==> !IsWhitespace(s[|s| - 1 - n])
    decreases |s|
  {
    if |s| > 0 && IsWhitespace(s[|s| - 1]) then 1 + TrailingWhitespace(s[..|s| - 1]) else 0
  }

  /** `s.trimStart()`. */
  function TrimStart(s: string): string {
    s[LeadingWhitespace(s)..]
  }

  /** `s.trimEnd()`. */
  function TrimEnd(s: string): string {
    s[..|s| - TrailingWhitespace(s)]
  }

  /** `s.trim()`: the trimmed core left between the whitespace runs at both ends. */
  function Trim(s: string): (r: string)
    ensures |r| <= |s|
    ensures IsTrimmed(r)
  {
    TrimEnd(TrimStart(s))
  }

  /** A run of whitespace of length `n` followed by a non-whitespace character
      (or the end) is the leading run. */
  lemma LeadingUnique(s: string, n: nat)
    requires n <= |s|
    requires forall i :: 0 <= i < n ==> IsWhitespace(s[i])
    requires n < |s| ==> !IsWhitespace(s[n])
    ensures LeadingWhitespace(s) == n
  {
  }

  lemma TrailingUnique(s: string, n: nat)
    requires n <= |s|
    requires forall i :: |s| - n <= i < |s| ==> IsWhitespace(s[i])
    requires n < |s| ==> !IsWhitespace(s[|s| - 1 - n])
    ensures TrailingWhitespace(s) == n
  {
  }

  /** `trim` is characterised by the decomposition it finds: whenever `s` is a
      trimmed core between two all-whitespace pads, `s.trim()` is that core. */
  lemma TrimUnique(s: string, p: string, m: string, q: string)
    requires s == p + m + q && AllWhitespace(p) && AllWhitespace(q) && IsTrimmed(m)
    ensures Trim(s) == m
  {
    if m == [] {
      LeadingUnique(s, |s|);
      assert TrimStart(s) == [];
    } else {
      assert s[|p|] == m[0];
      LeadingUnique(s, |p|);
      var t := TrimStart(s);
      assert t == m + q;
      assert t[|m| - 1] == m[|m| - 1];
      TrailingUnique(t, |q|);
      assert TrimEnd(t) == m;
    }
  }

  lemma LeadingRunIsWhitespace(s: string)
    ensures AllWhitespace(s[..LeadingWhitespace(s)])
  {
    var a := LeadingWhitespace(s);
    assert forall i :: 0 <= i < a ==> s[..a][i] == s[i];
  }

  lemma TrailingRunIsWhitespace(t: string)
    ensures AllWhitespace(t[|t| - TrailingWhitespace(t)..])
  {
    var b := TrailingWhitespace(t);
    var q := t[|t| - b..];
    assert forall i :: 0 <= i < |q| ==> q[i] == t[|t| - b + i];
  }

  lemma ThreePieces(s: string, a: nat, k: nat)
    requires a <= |s| && k <= |s| - a
    ensures s == s[..a] + s[a..][..k] + s[a..][k..]
  {
    assert s[a..] == s[a..][..k] + s[a..][k..];
    assert s == s[..a] + s[a..];
  }

  /** The pads `trim` removed. */
  lemma TrimSplit(s: string) returns (p: string, q: string)
    ensures s == p + Trim(s) + q && AllWhitespace(p) && AllWhitespace(q)
  {
    var a := LeadingWhitespace(s);
    var t := s[a..];
    var k := |t| - TrailingWhitespace(t);
    p, q := s[..a], t[k..];
    assert Trim(s) == t[..k];
    LeadingRunIsWhitespace(s);
    TrailingRunIsWhitespace(t);
    ThreePieces(s, a, k);
    assert s == p + t[..k] + q;
  }

  /** Padding a string with whitespace on either side does not change what it trims to. */
  lemma TrimPadded(w1: string, s: string, w2: string)
    requires AllWhitespace(w1) && AllWhitespace(w2)
    ensures Trim(w1 + s + w2) == Trim(s)
  {
    var p, q := TrimSplit(s);
    Regroup(w1, p, Trim(s), q, w2);
    WhitespaceJoin(w1, p);
    WhitespaceJoin(q, w2);
    TrimUnique(w1 + s + w2, w1 + p, Trim(s), q + w2);
  }

  lemma Regroup(w1: string, p: string, m: string, q: string, w2: string)
    ensures w1 + (p + m + q) + w2 == (w1 + p) + m + (q + w2)
  {
  }

  lemma WhitespaceJoin(a: string, b: string)
    requires AllWhitespace(a) && AllWhitespace(b)
    ensures AllWhitespace(a + b)
  {
    assert forall i :: 0 <= i < |a + b| ==> (a + b)[i] == if i < |a| then a[i] else b[i - |a|];
  }

  /** Trimming twice is trimming once. */
  lemma TrimIdempotent(s: string)
    ensures Trim(Trim(s)) == Trim(s)
  {
    var m := Trim(s);
    assert m == [] + m + [];
    TrimUnique(m, [], m, []);
  }

  /** The number of occurrences of `c` in `s`. */
  function Count(s: string, c: char): nat {
    if s == [] then 0 else (if s[0] == c then 1 else 0) + Count(s[1..], c)
  }

  /** `parts.join(sep)` for a one-character separator. */
  function Join(parts: seq<string>, sep: char): string
    requires |parts| >= 1
  {
    if |parts| == 1 then parts[0] else parts[0] + [sep] + Join(parts[1..], sep)
  }

  /** `s.split(sep)` for a one-character separator: the maximal runs between
      separators, so one more part than there are separators, none of them
      holding the separator, joining back to `s`. The empty string gives `[""]`. */
  function Split(s: string, sep: char): (parts: seq<string>)
    ensures |parts| == Count(s, sep) + 1
    ensures forall k :: 0 <= k < |parts| ==> sep !in parts[k]
    ensures Join(parts, sep) == s
    decreases |s|
  {
    if |s| == 0 then [""]
    else
      var rest := Split(s[1..], sep);
      if s[0] == sep then
        assert [""] + rest == [[]] + rest;
        assert s == [] + [sep] + s[1..];
        [""] + rest
      else
        var first := [s[0]] + rest[0];
        var parts := [first] + rest[1..];
        assert parts[1..] == rest[1..];
        assert forall k :: 1 <= k < |parts| ==> parts[k] == rest[k];
        assert |rest| > 1 ==> Join(rest, sep) == rest[0] + [sep] + Join(rest[1..], sep);
        assert s == [s[0]] + s[1..];
        parts
  }

  lemma SplitNoSeparator(s: string, sep: char)
    requires sep !in s
    ensures Split(s, sep) == [s]
  {
    var parts := Split(s, sep);
    assert Count(s, sep) == 0 by { CountAbsent(s, sep); }
  }

  lemma CountAbsent(s: string, c: char)
    requires c !in s
    ensures Count(s, c) == 0
  {
    if s != [] { assert c !in s[1..]; CountAbsent(s[1..], c); }
  }

  /** A string with exactly one separator between two separator-free parts splits into those parts. */
  lemma {:induction false} SplitTwo(a: string, b: string, sep: char)
    requires sep !in a && sep !in b
    ensures Split(a + [sep] + b, sep) == [a, b]
    decreases |a|
  {
    var s := a + [sep] + b;
    if a == [] {
      assert s[1..] == b;
      SplitNoSeparator(b, sep);
    } else {
      assert s[1..] == a[1..] + [sep] + b;
      assert sep !in a[1..];
      SplitTwo(a[1..], b, sep);
      assert [a[0]] + a[1..] == a;
    }
  }

  /** The number of UTF-16 code units of `s`, which is what a JavaScript
      string's `length` counts: two for a code point outside the BMP. */
  function Utf16Length(s: string): (n: nat)
    ensures |s| <= n <= 2 * |s|
  {
    if s == [] then 0 else (if s[0] as int >= 0x1_0000 then 2 else 1) + Utf16Length(s[1..])
  }
}
