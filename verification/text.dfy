/** The Kotlin string operations the app relies on: character classes,
    `trim`, `isBlank`, `lowercase`, `startsWith`/`removePrefix`,
    `contains` (optionally ignoring case), `substringBefore`, `replace`
    and first-letter capitalisation. Character classes and case mapping
    are those of ASCII (see README). */
module Text {
  import opened Seqs
  import opened Wrappers

  predicate IsUpper(c: char) { 'A' <= c <= 'Z' }
  predicate IsLower(c: char) { 'a' <= c <= 'z' }
  predicate IsDigit(c: char) { '0' <= c <= '9' }

  /** Space, the control characters TAB..CR and FS..US, and NO-BREAK SPACE. */
  predicate IsWhitespace(c: char) {
    c == ' ' || '\t' <= c <= '\r' || '\U{1C}' <= c <= '\U{1F}' || c == '\U{A0}'
  }

  function ToLowerChar(c: char): (r: char)
    ensures IsUpper(c) ==> IsLower(r)
    ensures !IsUpper(c) ==> r == c
  {
    if IsUpper(c) then (c as int + 32) as char else c
  }

  function ToUpperChar(c: char): (r: char)
    ensures IsLower(c) ==> IsUpper(r)
    ensures !IsLower(c) ==> r == c
  {
    if IsLower(c) then (c as int - 32) as char else c
  }

  /** Kotlin `lowercase()`. */
  function Lower(s: string): (r: string)
    ensures |r| == |s|
    ensures forall i :: 0 <= i < |s| ==> r[i] == ToLowerChar(s[i])
  {
    seq(|s|, i requires 0 <= i < |s| => ToLowerChar(s[i]))
  }

  /** Kotlin `isBlank()`: empty or whitespace only. */
  predicate IsBlank(s: string) {
    forall i :: 0 <= i < |s| ==> IsWhitespace(s[i])
  }

  /** Drops leading whitespace. */
  function TrimStart(s: string): (r: string)
    ensures |r| <= |s| && r == s[|s| - |r|..]
    ensures forall k :: 0 <= k < |s| - |r| ==> IsWhitespace(s[k])
    ensures |r| > 0 ==> !IsWhitespace(r[0])
  {
    if |s| > 0 && IsWhitespace(s[0]) then TrimStart(s[1..]) else s
  }

  /** Drops trailing whitespace. */
  function TrimEnd(s: string): (r: string)
    ensures |r| <= |s| && r == s[..|r|]
    ensures forall k :: |r| <= k < |s| ==> IsWhitespace(s[k])
    ensures |r| > 0 ==> !IsWhitespace(r[|r| - 1])
  {
    if |s| > 0 && IsWhitespace(s[|s| - 1]) then TrimEnd(s[..|s| - 1]) else s
  }

  /** Kotlin `trim()`. */
  function Trim(s: string): string {
    TrimEnd(TrimStart(s))
  }

  /** `Trim` removes exactly a whitespace prefix and a whitespace suffix, and
      what is left neither starts nor ends with whitespace. */
  lemma TrimIsInnerSlice(s: string)
    ensures exists i, j :: (0 <= i <= j <= |s| && Trim(s) == s[i..j]
                            && (forall k :: 0 <= k < i ==> IsWhitespace(s[k]))
                            && (forall k :: j <= k < |s| ==> IsWhitespace(s[k])))
    ensures |Trim(s)| > 0 ==> !IsWhitespace(Trim(s)[0]) && !IsWhitespace(Trim(s)[|Trim(s)| - 1])
  {
    var t := TrimStart(s);
    var u := TrimEnd(t);
    var i := |s| - |t|;
    var j := i + |u|;
    assert t == s[i..];
    assert u == t[..|u|];
    assert u == s[i..j];
    assert forall k :: j <= k < |s| ==> s[k] == t[k - i];
    assert forall k :: 0 <= k < i ==> IsWhitespace(s[k]);
    if |u| > 0 {
      assert u[0] == t[0];
    }
  }

  /** Trimming yields the empty string exactly for blank input. */
  lemma TrimEmptyIffBlank(s: string)
    ensures |Trim(s)| == 0 <==> IsBlank(s)
  {
    var t := TrimStart(s);
    if |t| > 0 {
      assert !IsWhitespace(t[0]);
      assert TrimEnd(t)[0] == t[0];
      assert s[|s| - |t|] == t[0];
    }
  }

  /** Trimming twice is the same as trimming once. */
  lemma TrimIdempotent(s: string)
    ensures Trim(Trim(s)) == Trim(s)
  {
    var t := Trim(s);
    TrimIsInnerSlice(s);
    assert TrimStart(t) == t;
    assert TrimEnd(t) == t;
  }

  /** Kotlin `startsWith(prefix)`. */
  predicate StartsWith(s: string, prefix: string) {
    |prefix| <= |s| && s[..|prefix|] == prefix
  }

  /** Kotlin `removePrefix(prefix)`: strips the prefix when present. */
  function RemovePrefix(s: string, prefix: string): (r: string)
    ensures StartsWith(s, prefix) ==> prefix + r == s
    ensures !StartsWith(s, prefix) ==> r == s
  {
    if StartsWith(s, prefix) then s[|prefix|..] else s
  }

  lemma RemovePrefixOfConcat(prefix: string, rest: string)
    ensures StartsWith(prefix + rest, prefix)
    ensures RemovePrefix(prefix + rest, prefix) == rest
  {
    assert (prefix + rest)[..|prefix|] == prefix;
  }

  /** `q` occurs in `s` at position `i`. */
  predicate OccursAt(s: string, q: string, i: int) {
    0 <= i && i + |q| <= |s| && s[i..i + |q|] == q
  }

  /** Kotlin `s.contains(q)`: `q` is a substring of `s`. */
  predicate Contains(s: string, q: string) {
    exists i | 0 <= i <= |s| - |q| :: OccursAt(s, q, i)
  }

  /** Lower-casing a string with no upper-case letter changes nothing. */
  lemma LowerOfLowercase(s: string)
    requires forall i :: 0 <= i < |s| ==> !IsUpper(s[i])
    ensures Lower(s) == s
  {
  }

  /** Lower-casing works character by character, so it distributes over `+`. */
  lemma LowerConcat(a: string, b: string)
    ensures Lower(a + b) == Lower(a) + Lower(b)
  {
  }

  /** Kotlin `s.contains(q, ignoreCase = true)`. */
  predicate ContainsIgnoreCase(s: string, q: string) {
    Contains(Lower(s), Lower(q))
  }

  /** Kotlin `a.equals(b, ignoreCase = true)`. */
  predicate EqualsIgnoreCase(a: string, b: string) {
    Lower(a) == Lower(b)
  }

  lemma ContainsEmpty(s: string)
    ensures Contains(s, "")
    ensures ContainsIgnoreCase(s, "")
  {
    assert OccursAt(s, "", 0);
    assert Lower("") == "";
    assert OccursAt(Lower(s), Lower(""), 0);
  }

  /** A string containing `q` contains every character of `q`. */
  lemma ContainsHasChars(s: string, q: string, c: char)
    requires Contains(s, q) && c in q
    ensures c in s
  {
    var i :| 0 <= i <= |s| - |q| && OccursAt(s, q, i);
    var k :| 0 <= k < |q| && q[k] == c;
    assert s[i + k] == s[i..i + |q|][k];
  }

  /** Containment is transitive: a part of a part is a part. */
  lemma ContainsTransitive(s: string, q: string, w: string)
    requires Contains(s, q) && Contains(q, w)
    ensures Contains(s, w)
  {
    var i :| 0 <= i <= |s| - |q| && OccursAt(s, q, i);
    var j :| 0 <= j <= |q| - |w| && OccursAt(q, w, j);
    forall k | 0 <= k < |w| ensures s[i + j + k] == w[k] {
      assert s[i + j + k] == s[i..i + |q|][j + k];
      assert q[j + k] == q[j..j + |w|][k];
    }
    assert s[i + j..i + j + |w|] == w;
    assert OccursAt(s, w, i + j);
  }

  /** Kotlin `s.substringBefore(c)`: the text before the first `c`, or all of `s`. */
  function SubstringBefore(s: string, c: char): (r: string)
    ensures |r| <= |s| && r == s[..|r|]
    ensures c !in r
    ensures |r| < |s| ==> s[|r|] == c
    ensures c !in s ==> r == s
  {
    match FindIndex(s, x => x == c)
    case None => s
    case Some(i) => s[..i]
  }

  /** The part before '@' of an address whose local part has no '@' is
      exactly that local part. */
  lemma {:induction false} SubstringBeforeOfAddress(local: string, domain: string)
    requires '@' !in local
    ensures SubstringBefore(local + "@" + domain, '@') == local
  {
    var s := local + "@" + domain;
    assert s[|local|] == '@';
    assert s[..|local|] == local;
  }

  /** Kotlin `s.replace(from, to)` on single characters. */
  function ReplaceChar(s: string, from: char, to: char): (r: string)
    ensures |r| == |s|
    ensures forall i :: 0 <= i < |s| ==> r[i] == (if s[i] == from then to else s[i])
  {
    seq(|s|, i requires 0 <= i < |s| => if s[i] == from then to else s[i])
  }

  /** Kotlin `replaceFirstChar { if (it.isLowerCase()) it.titlecase() else it.toString() }`,
      which is also what the deprecated `capitalize()` does. */
  function CapitalizeFirst(s: string): (r: string)
    ensures |r| == |s|
    ensures |s| > 0 ==> r[1..] == s[1..] && !IsLower(r[0])
    ensures |s| > 0 && IsLower(s[0]) ==> r[0] == ToUpperChar(s[0])
    ensures |s| > 0 && !IsLower(s[0]) ==> r == s
  {
    if |s| > 0 && IsLower(s[0]) then [ToUpperChar(s[0])] + s[1..] else s
  }
}
