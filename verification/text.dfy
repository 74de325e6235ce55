/**
 * The string primitives the cart controller relies on: `String.prototype.trim`,
 * `String.prototype.includes`, `Array.prototype.join` and `toLowerCase`.
 */
module Text {

  /** WhiteSpace and LineTerminator code points as ECMAScript's `trim` removes them. */
  predicate IsSpace(c: char) {
    || c == ' ' || c == '\t' || c == '\n' || c == '\r'
    || c == '\U{B}' || c == '\U{C}' || c == '\U{A0}' || c == '\U{FEFF}'
    || c == '\U{1680}' || ('\U{2000}' <= c <= '\U{200A}')
    || c == '\U{2028}' || c == '\U{2029}' || c == '\U{202F}' || c == '\U{205F}' || c == '\U{3000}'
  }

  predicate AllSpace(s: string) {
    forall i :: 0 <= i < |s| ==> IsSpace(s[i])
  }

  /** The number of white-space characters `s` starts with. */
  function LeadingSpaces(s: string): (n: nat)
    ensures n <= |s|
    ensures forall i :: 0 <= i < n ==> IsSpace(s[i])
    ensures n < |s| ==> !IsSpace(s[n])
  {
    if |s| > 0 && IsSpace(s[0]) then 1 + LeadingSpaces(s[1..]) else 0
  }

  /** The number of white-space characters `s` ends with. */
  function TrailingSpaces(s: string): (n: nat)
    ensures n <= |s|
    ensures forall i :: |s| - n <= i < |s| ==> IsSpace(s[i])
    ensures n < |s| ==> !IsSpace(s[|s| - 1 - n])
  {
    if |s| > 0 && IsSpace(s[|s| - 1]) then 1 + TrailingSpaces(s[..|s| - 1]) else 0
  }

  /** `t` is `s` without its leading white space: the suffix of `s` that starts at its first non-space. */
  predicate DropsLeading(s: string, t: string) {
    && |t| <= |s| && t == s[|s| - |t|..]
    && AllSpace(s[..|s| - |t|])
    && (t == [] || !IsSpace(t[0]))
  }

  /** `r` is `t` without its trailing white space: the prefix of `t` that ends at its last non-space. */
  predicate DropsTrailing(t: string, r: string) {
    && |r| <= |t| && r == t[..|r|]
    && AllSpace(t[|r|..])
    && (r == [] || !IsSpace(r[|r| - 1]))
  }

  /**
   * `r` is `s` with its white space dropped at both ends: an infix of `s`
   * with only white space around it, neither starting nor ending with white
   * space, and empty exactly when `s` is all white space.
   */
  predicate TrimmedFrom(s: string, r: string) {
    && (exists a :: 0 <= a && a + |r| <= |s| && r == s[a..a + |r|]
                    && AllSpace(s[..a]) && AllSpace(s[a + |r|..]))
    && (r == [] || (!IsSpace(r[0]) && !IsSpace(r[|r| - 1])))
    && (r == [] <==> AllSpace(s))
  }

  /** `s.trimStart()`. */
  function TrimStart(s: string): (r: string)
    ensures DropsLeading(s, r)
  {
    var n := LeadingSpaces(s);
    assert forall i :: 0 <= i < n ==> s[..n][i] == s[i];
    s[n..]
  }

  /** `s.trimEnd()`. */
  function TrimEnd(s: string): (r: string)
    ensures DropsTrailing(s, r)
  {
    var n := TrailingSpaces(s);
    var r := s[..|s| - n];
    assert forall i :: 0 <= i < n ==> s[|r|..][i] == s[|r| + i];
    r
  }

  /** `s.trim()`: the infix of `s` left once white space is removed from both ends. */
  function Trim(s: string): (r: string)
    ensures TrimmedFrom(s, r)
  {
    TrimPieces(s, TrimStart(s), TrimEnd(TrimStart(s)));
    TrimEnd(TrimStart(s))
  }

  /** Dropping the leading and then the trailing white space drops it at both ends. */
  lemma TrimPieces(s: string, t: string, r: string)
    requires DropsLeading(s, t) && DropsTrailing(t, r)
    ensures TrimmedFrom(s, r)
  {
    var a := |s| - |t|;
    assert s[a + |r|..] == t[|r|..];
    assert r == s[a..a + |r|];
    if r == [] {
      assert s == s[..a] + t;
      assert t == t[|r|..];
    } else {
      assert r[0] == t[0];
    }
  }

  /** Any padding of white space around a word that starts and ends with a non-space trims back to it. */
  lemma {:induction false} TrimPadded(pre: string, w: string, post: string)
    requires AllSpace(pre) && AllSpace(post)
    requires w != [] && !IsSpace(w[0]) && !IsSpace(w[|w| - 1])
    ensures Trim(pre + w + post) == w
  {
    TrimStartPadded(pre, w + post);
    assert pre + w + post == pre + (w + post);
    TrimEndPadded(w, post);
  }

  lemma {:induction false} TrimStartPadded(pre: string, s: string)
    requires AllSpace(pre)
    requires s != [] && !IsSpace(s[0])
    ensures TrimStart(pre + s) == s
  {
    if pre != [] {
      assert (pre + s)[1..] == pre[1..] + s;
      TrimStartPadded(pre[1..], s);
    } else {
      assert pre + s == s;
    }
  }

  lemma {:induction false} TrimEndPadded(s: string, post: string)
    requires AllSpace(post)
    requires s != [] && !IsSpace(s[|s| - 1])
    ensures TrimEnd(s + post) == s
  {
    if post != [] {
      assert (s + post)[..|s + post| - 1] == s + post[..|post| - 1];
      TrimEndPadded(s, post[..|post| - 1]);
    } else {
      assert s + post == s;
    }
  }

  /** A string with no white space at either end is its own trim. */
  lemma TrimmedIsFixed(w: string)
    requires w == [] || (!IsSpace(w[0]) && !IsSpace(w[|w| - 1]))
    ensures Trim(w) == w
  {
    assert TrimStart(w) == w;
    assert TrimEnd(w) == w;
  }

  /** Trimming twice is trimming once. */
  lemma TrimIdempotent(s: string)
    ensures Trim(Trim(s)) == Trim(s)
  {
    var r := Trim(s);
    assert TrimmedFrom(s, r);
    assert r == [] || (!IsSpace(r[0]) && !IsSpace(r[|r| - 1]));
    TrimmedIsFixed(r);
  }

  /** `s.includes(sub)`: `sub` occurs in `s` at some position. */
  predicate Contains(s: string, sub: string) {
    exists i :: 0 <= i <= |s| - |sub| && OccursAt(s, sub, i)
  }

  predicate OccursAt(s: string, sub: string, i: int) {
    0 <= i <= |s| - |sub| && s[i..i + |sub|] == sub
  }

  /** An occurrence inside a middle piece is an occurrence in the whole. */
  lemma ContainsInMiddle(a: string, b: string, c: string, sub: string)
    requires Contains(b, sub)
    ensures Contains(a + b + c, sub)
  {
    var i :| 0 <= i <= |b| - |sub| && OccursAt(b, sub, i);
    var j := |a| + i;
    assert (a + b + c)[j..j + |sub|] == b[i..i + |sub|];
    assert OccursAt(a + b + c, sub, j);
  }

  /** A word with a character that `s` does not hold does not occur in `s`. */
  lemma MissingCharNotContained(s: string, w: string, k: nat)
    requires k < |w| && w[k] !in s
    ensures !Contains(s, w)
  {
  }

  /** `parts.join(sep)`. */
  function Join(parts: seq<string>, sep: string): (r: string)
    ensures |parts| == 1 ==> r == parts[0]
  {
    if |parts| == 0 then ""
    else if |parts| == 1 then parts[0]
    else parts[0] + sep + Join(parts[1..], sep)
  }

  /** A word found in one of the joined parts is found in the joined string. */
  lemma {:induction false} ContainsInJoin(parts: seq<string>, sep: string, i: nat, sub: string)
    requires i < |parts| && Contains(parts[i], sub)
    ensures Contains(Join(parts, sep), sub)
  {
    if |parts| == 1 {
    } else if i == 0 {
      ContainsInMiddle([], parts[0], sep + Join(parts[1..], sep), sub);
      assert [] + parts[0] + (sep + Join(parts[1..], sep)) == Join(parts, sep);
    } else {
      ContainsInJoin(parts[1..], sep, i - 1, sub);
      ContainsInMiddle(parts[0] + sep, Join(parts[1..], sep), [], sub);
      assert parts[0] + sep + Join(parts[1..], sep) + [] == Join(parts, sep);
    }
  }

  predicate IsAsciiLetter(c: char) {
    ('A' <= c <= 'Z') || ('a' <= c <= 'z')
  }

  /** Case folding of one character; only the Latin capitals A-Z are folded. */
  function LowerChar(c: char): char {
    if 'A' <= c <= 'Z' then (c as int + 32) as char else c
  }

  /** `s.toLowerCase()`, restricted to the Latin alphabet. */
  function Lower(s: string): (r: string)
    ensures |r| == |s|
    ensures forall i :: 0 <= i < |s| ==> r[i] == LowerChar(s[i])
  {
    seq(|s|, i requires 0 <= i < |s| => LowerChar(s[i]))
  }

  /**
   * Case folding never creates nor destroys an occurrence of a word with no
   * Latin letters in it (the Arabic keywords the wizard looks for).
   */
  lemma LowerKeepsOccurrence(s: string, w: string)
    requires forall k :: 0 <= k < |w| ==> !IsAsciiLetter(w[k])
    ensures Contains(Lower(s), w) <==> Contains(s, w)
  {
    var l := Lower(s);
    if Contains(s, w) {
      var i :| 0 <= i <= |s| - |w| && OccursAt(s, w, i);
      forall k | 0 <= k < |w|
        ensures l[i + k] == w[k]
      {
        assert s[i + k] == w[k];
      }
      assert l[i..i + |w|] == w;
      assert OccursAt(l, w, i);
    }
    if Contains(l, w) {
      var i :| 0 <= i <= |l| - |w| && OccursAt(l, w, i);
      forall k | 0 <= k < |w|
        ensures s[i + k] == w[k]
      {
        assert l[i + k] == w[k] == LowerChar(s[i + k]);
      }
      assert s[i..i + |w|] == w;
      assert OccursAt(s, w, i);
    }
  }
}
