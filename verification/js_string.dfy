/**
 * The two JavaScript string primitives the line sanitiser relies on:
 * `String.prototype.replace` with a string pattern (which replaces only the
 * FIRST occurrence) and `String.prototype.trim`.
 */
module JsString {

  const LF: char := '\n'
  const CR: char := '\r'
  const ESC: char := '\U{1B}'

  /** The ECMAScript WhiteSpace and LineTerminator code points: what `trim` strips from both ends. */
  predicate IsWhitespace(c: char) {
    || c == '\t' || c == '\n' || c == '\U{0B}' || c == '\U{0C}' || c == '\r' || c == ' '
    || c == '\U{A0}' || c == '\U{1680}' || ('\U{2000}' <= c <= '\U{200A}')
    || c == '\U{2028}' || c == '\U{2029}' || c == '\U{202F}' || c == '\U{205F}'
    || c == '\U{3000}' || c == '\U{FEFF}'
  }

  /** On ASCII, `trim` strips exactly space and tab through carriage return; it never strips an escape. */
  lemma AsciiWhitespace(c: char)
    ensures c as int < 0x80 ==> (IsWhitespace(c) <==> c == ' ' || '\t' <= c <= '\r')
    ensures IsWhitespace(c) ==> c != ESC
  {
  }

  /** Position of the first occurrence of `c` in `s`. */
  function FirstIndex(s: string, c: char): (i: nat)
    requires c in s
    ensures i < |s| && s[i] == c
    ensures c !in s[..i]
  {
    if s[0] == c then 0
    else
      assert s == [s[0]] + s[1..];
      var j := FirstIndex(s[1..], c);
      assert s[..j + 1] == [s[0]] + s[1..][..j];
      j + 1
  }

  /** `s.replace(c, '')`: the first occurrence of `c` is deleted, later ones are kept. */
  function RemoveFirst(s: string, c: char): (r: string)
    ensures c !in s ==> r == s
    ensures c in s ==> r == s[..FirstIndex(s, c)] + s[FirstIndex(s, c) + 1..]
    ensures multiset(r) == multiset(s) - multiset{c}
    ensures |r| <= |s|
  {
    if |s| == 0 then s
    else if s[0] == c then
      assert s == [s[0]] + s[1..];
      s[1..]
    else
      var tail := RemoveFirst(s[1..], c);
      RemoveFirstStep(s, c, tail);
      [s[0]] + tail
  }

  /** The recursive case of RemoveFirst: a leading character other than `c` is kept. */
  lemma RemoveFirstStep(s: string, c: char, tail: string)
    requires |s| > 0 && s[0] != c
    requires c !in s[1..] ==> tail == s[1..]
    requires c in s[1..] ==> tail == s[1..][..FirstIndex(s[1..], c)] + s[1..][FirstIndex(s[1..], c) + 1..]
    requires multiset(tail) == multiset(s[1..]) - multiset{c}
    ensures c !in s ==> [s[0]] + tail == s
    ensures c in s ==> [s[0]] + tail == s[..FirstIndex(s, c)] + s[FirstIndex(s, c) + 1..]
    ensures multiset([s[0]] + tail) == multiset(s) - multiset{c}
  {
    assert s == [s[0]] + s[1..];
    if c in s {
      assert c in s[1..];
      var j := FirstIndex(s[1..], c);
      assert FirstIndex(s, c) == j + 1;
      ConsSplice(s[0], s[1..], j);
    }
    MultisetConsRemove(s[0], s[1..], c);
  }

  /** Cutting position `j` out of `u` and then prepending `x` cuts position `j + 1` out of `[x] + u`. */
  lemma ConsSplice<T>(x: T, u: seq<T>, j: nat)
    requires j < |u|
    ensures [x] + (u[..j] + u[j + 1..]) == ([x] + u)[..j + 1] + ([x] + u)[j + 2..]
  {
    assert ([x] + u)[..j + 1] == [x] + u[..j];
    assert ([x] + u)[j + 2..] == u[j + 1..];
  }

  lemma MultisetConsRemove(x: char, rest: string, c: char)
    requires x != c
    ensures multiset([x]) + (multiset(rest) - multiset{c}) == multiset([x] + rest) - multiset{c}
  {
    assert multiset([x] + rest) == multiset{x} + multiset(rest);
  }

  /** Drops the maximal whitespace prefix. */
  function TrimStart(s: string): (r: string)
    ensures |r| <= |s| && r == s[|s| - |r|..]
    ensures forall i :: 0 <= i < |s| - |r| ==> IsWhitespace(s[i])
    ensures r == [] || !IsWhitespace(r[0])
  {
    if |s| > 0 && IsWhitespace(s[0]) then TrimStart(s[1..]) else s
  }

  /** Dropping the whitespace prefix loses no non-whitespace character. */
  lemma {:induction false} TrimStartKeeps(s: string)
    ensures forall c :: !IsWhitespace(c) ==> multiset(TrimStart(s))[c] == multiset(s)[c]
    decreases |s|
  {
    if |s| > 0 && IsWhitespace(s[0]) {
      TrimStartKeeps(s[1..]);
      assert s == [s[0]] + s[1..];
    }
  }

  /** Drops the maximal whitespace suffix. */
  function TrimEnd(s: string): (r: string)
    ensures |r| <= |s| && r == s[..|r|]
    ensures forall i :: |r| <= i < |s| ==> IsWhitespace(s[i])
    ensures r == [] || !IsWhitespace(r[|r| - 1])
  {
    if |s| > 0 && IsWhitespace(s[|s| - 1]) then TrimEnd(s[..|s| - 1]) else s
  }

  /** Dropping the whitespace suffix loses no non-whitespace character. */
  lemma {:induction false} TrimEndKeeps(s: string)
    ensures forall c :: !IsWhitespace(c) ==> multiset(TrimEnd(s))[c] == multiset(s)[c]
    decreases |s|
  {
    if |s| > 0 && IsWhitespace(s[|s| - 1]) {
      TrimEndKeeps(s[..|s| - 1]);
      assert s == s[..|s| - 1] + [s[|s| - 1]];
    }
  }

  /** `r` is `s[a..a + |r|]`, with only whitespace before and after it. */
  ghost predicate FramedAt(r: string, s: string, a: nat) {
    && a + |r| <= |s| && r == s[a..a + |r|]
    && (forall i :: 0 <= i < a ==> IsWhitespace(s[i]))
    && (forall i :: a + |r| <= i < |s| ==> IsWhitespace(s[i]))
  }

  /** `r` is the part of `s` between a whitespace prefix and a whitespace suffix. */
  ghost predicate IsWhitespaceFramed(r: string, s: string) {
    exists a: nat :: FramedAt(r, s, a)
  }

  /** Trimming the prefix and then the suffix leaves a whitespace-framed infix. */
  lemma TrimFramed(s: string)
    ensures IsWhitespaceFramed(TrimEnd(TrimStart(s)), s)
  {
    var t := TrimStart(s);
    TrimEndFramed(s, t, |s| - |t|);
  }

  /** Trimming the suffix of `s[a..]`, where `s[..a]` is whitespace, leaves `s` framed at `a`. */
  lemma TrimEndFramed(s: string, t: string, a: nat)
    requires a <= |s| && t == s[a..]
    requires forall i :: 0 <= i < a ==> IsWhitespace(s[i])
    ensures FramedAt(TrimEnd(t), s, a)
  {
    var r := TrimEnd(t);
    assert r == s[a..a + |r|];
    forall i | a + |r| <= i < |s| ensures IsWhitespace(s[i]) {
      assert s[i] == t[i - a];
    }
  }

  /** `s.trim()`: the infix left once whitespace is stripped from both ends. */
  function Trim(s: string): (r: string)
    ensures |r| <= |s|
    ensures r == [] || (!IsWhitespace(r[0]) && !IsWhitespace(r[|r| - 1]))
    ensures IsWhitespaceFramed(r, s)
  {
    TrimFramed(s);
    TrimKeepsEnds(s);
    TrimEnd(TrimStart(s))
  }

  /** `trim()` keeps every non-whitespace character as often as the string holds it. */
  lemma TrimKeepsNonWhitespace(s: string)
    ensures forall c :: !IsWhitespace(c) ==> multiset(Trim(s))[c] == multiset(s)[c]
  {
    var t := TrimStart(s);
    TrimStartKeeps(s);
    TrimEndKeeps(t);
    TrimKeepsCounts(s, t, TrimEnd(t));
  }

  /** Trimming the prefix and then the suffix leaves non-whitespace at both ends. */
  lemma TrimKeepsEnds(s: string)
    ensures var r := TrimEnd(TrimStart(s)); r == [] || (!IsWhitespace(r[0]) && !IsWhitespace(r[|r| - 1]))
  {
    var t := TrimStart(s);
    var r := TrimEnd(t);
    if |r| > 0 {
      assert r[0] == t[0];
    }
  }

  /** Two trims that each keep every non-whitespace count keep them together. */
  lemma TrimKeepsCounts(s: string, t: string, r: string)
    requires forall c :: !IsWhitespace(c) ==> multiset(t)[c] == multiset(s)[c]
    requires forall c :: !IsWhitespace(c) ==> multiset(r)[c] == multiset(t)[c]
    ensures forall c :: !IsWhitespace(c) ==> multiset(r)[c] == multiset(s)[c]
  {
  }
}
